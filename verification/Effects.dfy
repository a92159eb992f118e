/**
  Effects of items: auras that proc with a cooldown of their own, raise a statistic of the player while
  they last, and give it back when they fade. They run among whatever else the event queue holds.
 */
module Effects {
  import opened Basics
  import opened Queues
  import opened Auras
  import opened EffectWorld

  // ------------------------------------------------------------------------------------- statistics

  /** What an effect does to a statistic: it adds to it, or, to haste, multiplies it. */
  datatype Boost = Plus(delta: real) | Haste(share: real)

  /** `AddHastePrecentage`. */
  function AddHaste(a: real, h: real): real {
    if h > 0.0 then (1.0 + a) * (1.0 + h) - 1.0 else (1.0 + a) / (1.0 - h) - 1.0
  }

  function Up(b: Boost, x: real): real {
    match b
    case Plus(delta) => x + delta
    case Haste(share) => AddHaste(x, share)
  }

  /** A boost is taken back by giving the opposite one. */
  function Opposite(b: Boost): Boost {
    match b
    case Plus(delta) => Plus(-delta)
    case Haste(share) => Haste(-share)
  }

  function Down(b: Boost, x: real): real { Up(Opposite(b), x) }

  /** By what a share of haste multiplies. */
  function Factor(h: real): real { if h > 0.0 then 1.0 + h else 1.0 / (1.0 - h) }

  lemma Quotient(x: real, c: real)
    requires c > 0.0
    ensures x / c == x * (1.0 / c) && c * (1.0 / c) == 1.0
  {
    var r := 1.0 / c;
    assert r * c == 1.0;
    var q := x / c;
    assert q * c == x;
    assert (x * r) * c == x * (r * c);
    assert (q - x * r) * c == q * c - (x * r) * c == 0.0;
  }

  lemma AddHasteIs(a: real, h: real)
    ensures AddHaste(a, h) == (1.0 + a) * Factor(h) - 1.0
  {
    if h <= 0.0 { Quotient(1.0 + a, 1.0 - h); }
  }

  lemma FactorInverse(h: real)
    ensures Factor(h) * Factor(-h) == 1.0
  {
    if h > 0.0 { Quotient(1.0, 1.0 + h); } else { Quotient(1.0, 1.0 - h); }
  }

  lemma Regroup(x: real, f: real, g: real)
    ensures (x * f) * g == x * (f * g) && (x * f) * g == (x * g) * f
  {}

  /** What is given is taken back, exactly. */
  lemma DownUp(b: Boost, x: real)
    ensures Down(b, Up(b, x)) == x
  {
    if b.Haste? {
      var h := b.share;
      AddHasteIs(x, h);
      AddHasteIs(AddHaste(x, h), -h);
      FactorInverse(h);
      Regroup(1.0 + x, Factor(h), Factor(-h));
    }
  }

  /** Boosts of the same kind may be given in any order. */
  lemma Commute(b: Boost, c: Boost, x: real)
    requires b.Haste? == c.Haste?
    ensures Up(b, Up(c, x)) == Up(c, Up(b, x))
  {
    if b.Haste? {
      var g, h := b.share, c.share;
      AddHasteIs(x, g);
      AddHasteIs(x, h);
      AddHasteIs(AddHaste(x, g), h);
      AddHasteIs(AddHaste(x, h), g);
      Regroup(1.0 + x, Factor(g), Factor(h));
    }
  }

  /** A statistic raised `n` times. */
  function Raised(b: Boost, n: nat, x: real): real { if n == 0 then x else Up(b, Raised(b, n - 1, x)) }

  lemma {:induction false} RaisedOther(b: Boost, c: Boost, n: nat, x: real)
    requires b.Haste? == c.Haste?
    ensures Up(c, Raised(b, n, x)) == Raised(b, n, Up(c, x))
  {
    if n > 0 {
      RaisedOther(b, c, n - 1, x);
      Commute(b, c, Raised(b, n - 1, x));
    }
  }

  function Power(c: real, n: nat): real { if n == 0 then 1.0 else c * Power(c, n - 1) }

  /** What it means for `y` to be `x` with a boost given `n` times: so much more, or as many times by so large a share
      faster, or slower. */
  ghost predicate Lifted(b: Boost, n: nat, x: real, y: real) {
    match b
    case Plus(d) => y == x + n as real * d
    case Haste(h) =>
      if h > 0.0 then 1.0 + y == (1.0 + x) * Power(1.0 + h, n) else (1.0 + y) * Power(1.0 - h, n) == 1.0 + x
  }

  lemma UpLifts(b: Boost, x: real)
    ensures Lifted(b, 1, x, Up(b, x))
  {
    assert b.Haste? ==> Power(1.0 + b.share, 1) == 1.0 + b.share && Power(1.0 - b.share, 1) == 1.0 - b.share;
    if b.Haste? && b.share <= 0.0 { assert (1.0 + x) / (1.0 - b.share) * (1.0 - b.share) == 1.0 + x; }
  }

  /** Once more. */
  lemma LiftedMore(b: Boost, n: nat, x: real, y: real, z: real)
    requires Lifted(b, n, x, y) && Lifted(b, 1, y, z)
    ensures Lifted(b, n + 1, x, z)
  {
    hide Power;
    match b
    case Plus(d) => assert (n + 1) as real * d == n as real * d + d;
    case Haste(h) => if h > 0.0 { MorePower(1.0 + h, n, 1.0 + x, 1.0 + y, 1.0 + z); }
                     else { MorePower(1.0 - h, n, 1.0 + z, 1.0 + y, 1.0 + x); }
  }

  lemma MorePower(c: real, n: nat, x: real, y: real, z: real)
    requires (y == x * Power(c, n) && z == y * Power(c, 1)) || (y == x * Power(c, 1) && z == y * Power(c, n))
    ensures z == x * Power(c, n + 1)
  {
    var p := Power(c, n);
    assert Power(c, 1) == c * Power(c, 0) == c;
    Regroup(x, p, c);
  }

  /** A statistic raised for `n` stacks. */
  lemma {:induction false} RaisedLifts(b: Boost, n: nat, x: real)
    ensures Lifted(b, n, x, Raised(b, n, x))
  {
    hide Up;
    if n > 0 {
      RaisedLifts(b, n - 1, x);
      UpLifts(b, Raised(b, n - 1, x));
      hide Lifted;
      LiftedMore(b, n - 1, x, Raised(b, n - 1, x), Raised(b, n, x));
    } else {
      assert 0 as real * 1.0 == 0.0;
    }
  }

  // ------------------------------------------------------------------------ an effect with a cooldown

  datatype Config = Config(key: Key, cooldown: nat, fadeTime: nat)

  /** The effect has been applied, or has faded. */
  datatype Happening = Rose(at: nat) | Faded(at: nat)

  datatype State = State(w: World, last: Option<nat>, applied: bool, asked: Option<Event>, log: seq<Happening>)

  /** Applications and fades take turns; a fade comes when it should, and applications are more than a cooldown apart.
      */
  ghost predicate Alternating(c: Config, log: seq<Happening>) {
    forall i :: 0 <= i < |log| ==> InTurn(c, log, i)
  }

  predicate InTurn(c: Config, log: seq<Happening>, i: nat)
    requires i < |log|
  {
    && (log[i].Rose? <==> i % 2 == 0)
    && (i > 0 && log[i].Faded? ==> log[i].at == log[i - 1].at + c.fadeTime + 1)
    && (i > 1 && log[i].Rose? ==> log[i].at > log[i - 2].at + c.cooldown)
  }

  /** When it was last applied. */
  function LastRise(log: seq<Happening>): nat
    requires log != []
  {
    if log[|log| - 1].Rose? || |log| == 1 then log[|log| - 1].at else log[|log| - 2].at
  }

  ghost predicate Logged(c: Config, s: State) {
    && Alternating(c, s.log) && (s.applied <==> |s.log| % 2 == 1)
    && (s.log != [] ==>
          if s.asked.None? then s.last == Some(LastRise(s.log)) else s.w.now > LastRise(s.log) + c.cooldown)
  }

  function Request(c: Config): Event { Apply(c.key, 1, c.fadeTime, true) }

  /** The application on its way was asked for now, and when the aura is still there, its removal comes first. */
  ghost predicate Requested(c: Config, s: State) {
    && Asked(s.w, c.key, s.asked) && (s.last.Some? ==> s.last.value <= s.w.now)
    && (s.asked.Some? ==> s.asked.value == Request(c) && s.last == Some(s.w.now))
    && (s.asked.Some? && s.applied && c.key in s.w.auras ==>
          Before(s.w.q, s.w.now, Remove(c.key, s.w.auras[c.key].guid), Request(c)))
  }

  ghost predicate Lasting(c: Config, s: State) {
    && (s.applied <==> c.key in s.w.auras)
    && (s.applied ==>
          var g := s.w.auras[c.key].guid;
          && g in s.w.life && !s.w.life[g].refreshed && s.w.life[g].full == c.fadeTime && s.log != []
          && s.w.life[g].start == LastRise(s.log))
  }

  ghost predicate Fine(c: Config, s: State) {
    Inv(s.w) && NeverTicks(s.w, c.key) && Requested(c, s) && Lasting(c, s) && Logged(c, s)
  }

  predicate CooledDown(c: Config, s: State) {
    s.last.None? || (s.w.now as int - s.last.value as int) > c.cooldown as int
  }

  function Asking(c: Config, s: State): State {
    s.(w := s.w.(q := Append(s.w.q, s.w.now, Request(c))), last := Some(s.w.now), asked := Some(Request(c)))
  }

  /** A proc: if the aura is there, this is the instant of its removal, which is already queued. */
  lemma AskingKeeps(c: Config, s: State)
    requires Fine(c, s) && CooledDown(c, s) && c.cooldown >= c.fadeTime >= 1
    ensures Fine(c, Asking(c, s))
  {
    var h, e := Asking(c, s), Request(c);
    assert s.asked.None?;
    AskedNow(s.w, c.key, e);
    AppliesLater(s.w, s.w.now, e);
    if s.applied {
      RemovalWaits(s.w, c.key);
      assert LastRise(s.log) + c.cooldown < s.w.now;
    }
    hide Inv;
    hide Append;
    hide Asked;
    hide Alternating;
  }

  /** The state with the world one turn later. */
  function Turn(s: State, m: Measure): State
    requires Inv(s.w) && HasFront(s.w)
    requires Suits(s.w, m)
  {
    s.(w := Turned(s.w, m))
  }

  /** Events of other auras change nothing. */
  lemma TurnElseKeeps(c: Config, s: State, m: Measure)
    requires Fine(c, s) && HasFront(s.w) && Front(s.w).key != c.key
    requires Suits(s.w, m)
    ensures Fine(c, Turn(s, m))
  {
    var h, e := Turn(s, m), Front(s.w);
    TurnedKeeps(s.w, m);
    TurnedMoved(s.w, m, c.key);
    TurnedElse(s.w, m, c.key);
    TurnedNow(s.w, m);
    NeverTicksTurned(s.w, m, c.key);
    hide Inv;
    hide Turned;
    AskedMoved(s.w, h.w, c.key, s.asked, e);
    if s.asked.Some? && s.applied && c.key in s.w.auras {
      BeforeMoved(s.w, h.w, c.key, e, Remove(c.key, s.w.auras[c.key].guid), Request(c));
    }
    hide Moved;
    hide Asked;
    hide Before;
    hide Alternating;
    hide NeverTicks;
  }

  function Rising(s: State, m: Measure): State
    requires Inv(s.w) && HasFront(s.w)
    requires Suits(s.w, m)
  {
    State(Turned(s.w, m), s.last, true, None, s.log + [Rose(s.w.now)])
  }

  /** When its application runs, the aura is not there. */
  lemma RisesFromNothing(c: Config, s: State)
    requires Fine(c, s) && HasFront(s.w) && Applies(Front(s.w), c.key)
    ensures !s.applied && c.key !in s.w.auras && s.asked == Some(Front(s.w)) && Front(s.w) == Request(c)
  {
    assert At(s.w.q, s.w.now, 0, Front(s.w));
    if s.applied { NotBehindFront(s.w, c.key, Remove(c.key, s.w.auras[c.key].guid)); }
  }

  lemma OneMore(c: Config, log: seq<Happening>, x: Happening)
    requires Alternating(c, log) && (x.Rose? <==> |log| % 2 == 0)
    requires log != [] && x.Faded? ==> x.at == log[|log| - 1].at + c.fadeTime + 1
    requires |log| > 1 && x.Rose? ==> x.at > log[|log| - 2].at + c.cooldown
    ensures Alternating(c, log + [x])
  {
    var r := log + [x];
    forall i | 0 <= i < |r| ensures InTurn(c, r, i) {
      if i < |log| {
        assert InTurn(c, log, i);
        SameTurn(c, log, r, i);
      }
    }
  }

  lemma SameTurn(c: Config, log: seq<Happening>, r: seq<Happening>, i: nat)
    requires log <= r && i < |log| && InTurn(c, log, i)
    ensures InTurn(c, r, i)
  {}

  /** The last entry tells whether the aura is there, and if not, the one before is its application. */
  lemma LastEntry(c: Config, log: seq<Happening>)
    requires Alternating(c, log) && log != []
    ensures log[|log| - 1].Rose? <==> |log| % 2 == 1
    ensures |log| % 2 == 0 ==> |log| > 1 && log[|log| - 2].Rose? && LastRise(log) == log[|log| - 2].at
    ensures |log| % 2 == 1 ==> LastRise(log) == log[|log| - 1].at
  {
    assert InTurn(c, log, |log| - 1);
    assert |log| > 1 ==> InTurn(c, log, |log| - 2);
  }

  lemma RiseLogged(c: Config, s: State, h: State)
    requires Logged(c, s) && !s.applied && s.asked.Some? && s.last == Some(s.w.now)
    requires h.log == s.log + [Rose(s.w.now)] && h.applied && h.asked.None? && h.last == s.last && h.w.now == s.w.now
    ensures Logged(c, h) && LastRise(h.log) == s.w.now
  {
    if s.log != [] { LastEntry(c, s.log); }
    OneMore(c, s.log, Rose(s.w.now));
    hide Alternating;
  }

  lemma FadeLogged(c: Config, s: State, h: State)
    requires Logged(c, s) && s.applied && s.log != [] && s.w.now == LastRise(s.log) + c.fadeTime + 1
    requires h.log == s.log + [Faded(s.w.now)] && !h.applied && h.asked == s.asked && h.last == s.last
    requires h.w.now == s.w.now
    ensures Logged(c, h) && LastRise(h.log) == LastRise(s.log)
  {
    LastEntry(c, s.log);
    OneMore(c, s.log, Faded(s.w.now));
    LastEntry(c, h.log);
    assert h.log[|h.log| - 2] == s.log[|s.log| - 1];
    hide Alternating;
  }

  lemma RisingKeeps(c: Config, s: State)
    requires Fine(c, s) && HasFront(s.w) && Applies(Front(s.w), c.key)
    ensures Fits(Plain(c.fadeTime), Front(s.w).duration) && Fine(c, Rising(s, Plain(c.fadeTime)))
  {
    var m := Plain(c.fadeTime);
    RisesFromNothing(c, s);
    var h := Rising(s, m);
    TurnedKeeps(s.w, m);
    AskedRan(s.w, m, c.key);
    NeverTicksTurned(s.w, m, c.key);
    TurnedNow(s.w, m);
    TurnedFresh(s.w, m);
    hide Inv;
    hide Turned;
    RiseLogged(c, s, h);
    hide Logged;
    hide Asked;
    hide Before;
    hide NeverTicks;
  }

  function Falling(s: State, m: Measure): State
    requires Inv(s.w) && HasFront(s.w) && Front(s.w).Remove?
  {
    State(Turned(s.w, m), s.last, false, s.asked, s.log + [Faded(s.w.now)])
  }

  /** The removal of the aura: it is on time, and the aura fades. */
  lemma FallingKeeps(c: Config, s: State, m: Measure)
    requires Fine(c, s) && c.fadeTime >= 1 && HasFront(s.w) && Front(s.w).Remove? && Front(s.w).key == c.key
    requires c.key in s.w.auras && s.w.auras[c.key].guid == Front(s.w).guid
    ensures Fine(c, Falling(s, m)) && s.w.auras[c.key].fade <= s.w.now
  {
    var h := Falling(s, m);
    FadesOnTime(c, s);
    TurnedKeeps(s.w, m);
    RemovalMoved(s.w, m);
    TurnedNow(s.w, m);
    NeverTicksTurned(s.w, m, c.key);
    TurnedGone(s.w, m);
    hide Inv;
    hide Turned;
    AskedMoved(s.w, h.w, c.key, s.asked, Front(s.w));
    FadeLogged(c, s, h);
    hide Logged;
    hide Moved;
    hide Asked;
    hide Before;
    hide NeverTicks;
  }

  lemma FadesOnTime(c: Config, s: State)
    requires Fine(c, s) && c.fadeTime >= 1 && HasFront(s.w) && Front(s.w).Remove? && c.key in s.w.auras
    requires Front(s.w).key == c.key && s.w.auras[c.key].guid == Front(s.w).guid
    ensures s.w.auras[c.key].fade == LastRise(s.log) + c.fadeTime + 1 == s.w.now
  {
    RemovalWaits(s.w, c.key);
    FrontKnown(s.w);
    RemovalDue(s.w);
    assert At(s.w.q, s.w.now, 0, Front(s.w));
    hide At;
  }

  /** A removal of an instance that is gone already is ignored. */
  lemma StaleKeeps(c: Config, s: State, m: Measure)
    requires Fine(c, s) && HasFront(s.w) && Front(s.w).Remove? && Front(s.w).key == c.key
    requires c.key !in s.w.auras || s.w.auras[c.key].guid != Front(s.w).guid
    ensures Fine(c, Turn(s, m))
  {
    var h := Turn(s, m);
    TurnedKeeps(s.w, m);
    RemovalMoved(s.w, m);
    TurnedNow(s.w, m);
    NeverTicksTurned(s.w, m, c.key);
    TurnedStale(s.w, m);
    hide Inv;
    hide Turned;
    AskedMoved(s.w, h.w, c.key, s.asked, Front(s.w));
    if s.asked.Some? && s.applied && c.key in s.w.auras {
      BeforeMoved(s.w, h.w, c.key, Front(s.w), Remove(c.key, s.w.auras[c.key].guid), Request(c));
    }
    hide Moved;
    hide Asked;
    hide Before;
    hide Alternating;
    hide NeverTicks;
  }

  /** Other scripts apply other auras. */
  lemma ElsewhereKeeps(c: Config, s: State, e: Event)
    requires Fine(c, s) && e.Apply? && e.key != c.key
    ensures Fine(c, s.(w := s.w.(q := Append(s.w.q, s.w.now, e))))
  {
    AppliesLater(s.w, s.w.now, e);
    AskedElse(s.w, c.key, s.asked, e);
    AppendAt(s.w.q, s.w.now, e);
    hide Append;
    hide Inv;
    hide At;
    hide Asked;
    hide Alternating;
  }

  lemma WaitKeeps(c: Config, s: State, now: nat)
    requires Fine(c, s) && s.w.now <= now && forall t :: t in s.w.q ==> now <= t
    ensures Fine(c, s.(w := s.w.(now := now)))
  {
    ClockMoves(s.w, now);
    AskedLater(s.w, c.key, s.asked, now);
    hide Inv;
    hide Asked;
    hide Alternating;
  }

  // ------------------------------------------------------------------------------------- the Lua object

  /** What may happen next: something casts or ticks, or the player uses the item; or other things do what they do. */
  datatype Choice =
    | TryProc(condition: bool, luck: bool)
    | TryUse
    | ApplyOther(e: Event)
    | BoostOther(b: Boost)
    | NextEvent(m: Measure)
    | Wait(until: nat)

  /** An effect as it was registered, and all there is to know of it at a time. */
  datatype Item = Item(c: Config, useable: bool, boost: Boost)

  datatype Moment = Moment(s: State, stat: real, base: real)

  /** The aura has been asked for, at once, and the cooldown starts. */
  ghost predicate AskedFor(c: Config, s: State, t: State) {
    && t.w == s.w.(q := Append(s.w.q, s.w.now, Apply(c.key, 1, c.fadeTime, true))) && t.last == Some(s.w.now)
    && t.applied == s.applied && t.log == s.log
  }

  /** The front event has run, which takes the effect's part of its routine with it. */
  ghost predicate Runs(i: Item, a: Moment, m: Measure, b: Moment)
    requires HasFront(a.s.w)
  {
    var e, k := Front(a.s.w), i.c.key;
    && Turns(a.s.w, m, b.s.w) && b.base == a.base && b.s.last == a.s.last
    && if e.Apply? && e.key == k then
         b.s.applied && b.s.log == a.s.log + [Rose(a.s.w.now)] && Lifted(i.boost, 1, a.stat, b.stat)
       else if e.key == k && k in a.s.w.auras && a.s.w.auras[k].guid == e.guid then
         !b.s.applied && b.s.log == a.s.log + [Faded(a.s.w.now)] && Lifted(i.boost, 1, b.stat, a.stat)
       else b.s.applied == a.s.applied && b.s.log == a.s.log && b.stat == a.stat
  }

  /** What comes of a choice: everything as it was where nothing is said of it. */
  ghost predicate Happens(i: Item, a: Moment, x: Choice, b: Moment) {
    match x
    case TryProc(condition, luck) =>
      && b.stat == a.stat && b.base == a.base
      && if condition && luck && CooledDown(i.c, a.s) then AskedFor(i.c, a.s, b.s) else b == a
    case TryUse =>
      && b.stat == a.stat && b.base == a.base
      && if i.useable && !a.s.applied && CooledDown(i.c, a.s) then AskedFor(i.c, a.s, b.s) else b == a
    case ApplyOther(e) =>
      if e.Apply? && e.key != i.c.key then b == a.(s := a.s.(w := a.s.w.(q := Append(a.s.w.q, a.s.w.now, e))))
      else b == a
    case BoostOther(o) =>
      if o.Haste? == i.boost.Haste?
      then b.s == a.s && Lifted(o, 1, a.stat, b.stat) && Lifted(o, 1, a.base, b.base)
      else b == a
    case NextEvent(m) =>
      if !HasFront(a.s.w) then b == a
      else
        var n := if Applies(Front(a.s.w), i.c.key) then Plain(i.c.fadeTime) else m;
        if Suits(a.s.w, n) then Runs(i, a, n, b) else b == a
    case Wait(until) =>
      if a.s.w.now <= until && forall t :: t in a.s.w.q ==> until <= t
      then b == a.(s := a.s.(w := a.s.w.(now := until))) else b == a
  }

  /** The history that the choices make. */
  ghost predicate History(i: Item, choices: seq<Choice>, moments: seq<Moment>) {
    |moments| == |choices| + 1 && forall k :: 0 <= k < |choices| ==> Happens(i, moments[k], choices[k], moments[k + 1])
  }

  lemma HistoryNone(i: Item, choices: seq<Choice>, b: Moment)
    ensures History(i, choices[..0], [b])
  {}

  lemma HistoryMore(i: Item, choices: seq<Choice>, moments: seq<Moment>, x: Choice, b: Moment)
    requires History(i, choices, moments) && Happens(i, moments[|choices|], x, b)
    ensures History(i, choices + [x], moments + [b])
  {
    hide Happens;
  }

  /** `EffectWithCooldownProto`, and the statistic of the player that it raises. */
  class CooldownEffect {
    const key: Key
    const useable: bool
    const cooldown: nat
    const fadeTime: nat
    const boost: Boost
    var w: World
    var lastTime: Option<nat>
    var applied: bool
    var stat: real
    /** What the statistic would be without the effect. */
    ghost var base: real
    ghost var asked: Option<Event>
    ghost var log: seq<Happening>

    ghost function Snap(): State
      reads this
    {
      State(w, lastTime, applied, asked, log)
    }

    ghost function Now(): Moment
      reads this
    {
      Moment(Snap(), stat, base)
    }

    ghost function It(): Item { Item(Config(key, cooldown, fadeTime), useable, boost) }

    ghost predicate Valid()
      reads this
    {
      && cooldown >= fadeTime >= 1 && Fine(Config(key, cooldown, fadeTime), Snap())
      && stat == if applied then Up(boost, base) else base
    }

    constructor (key: Key, useable: bool, cooldown: nat, fadeTime: nat, boost: Boost, stat: real)
      requires cooldown >= fadeTime >= 1
      ensures Valid() && !applied && this.stat == stat == base && log == []
      ensures this.key == key && this.useable == useable && this.cooldown == cooldown && this.fadeTime == fadeTime
      ensures this.boost == boost
    {
      this.key, this.useable, this.cooldown, this.fadeTime, this.boost := key, useable, cooldown, fadeTime, boost;
      w := World(0, map[], map[], 0, map[]);
      lastTime, applied, this.stat, base, asked, log := None, false, stat, stat, None, [];
    }

    /** `IsCooldown`. */
    predicate IsCooldown()
      reads this
    {
      lastTime.None? || w.now as int - lastTime.value as int > cooldown
    }

    /** `IsReady`. */
    predicate IsReady()
      reads this
    {
      useable && !applied && IsCooldown()
    }

    /** `UnitApplyAura`. */
    method UnitApplyAura()
      requires Valid() && IsCooldown()
      modifies this
      ensures Valid() && AskedFor(It().c, old(Snap()), Snap()) && stat == old(stat) && base == old(base)
    {
      ghost var c := Config(key, cooldown, fadeTime);
      ghost var s := Snap();
      AskingKeeps(c, s);
      hide Fine;
      hide Append;
      lastTime := Some(w.now);
      w := w.(q := Append(w.q, w.now, Apply(key, 1, fadeTime, true)));
      asked := Some(Request(c));
      assert Snap() == Asking(c, s);
    }

    /** `Use`. */
    method Use()
      requires Valid()
      modifies this
      ensures Valid() && stat == old(stat) && base == old(base)
      ensures if old(IsReady()) then AskedFor(It().c, old(Snap()), Snap()) else Snap() == old(Snap())
    {
      hide Fine;
      if IsReady() {
        UnitApplyAura();
      }
    }

    /** `Proc`. */
    method Proc(condition: bool, luck: bool)
      requires Valid()
      modifies this
      ensures Valid() && stat == old(stat) && base == old(base)
      ensures if condition && luck && old(IsCooldown()) then AskedFor(It().c, old(Snap()), Snap())
              else Snap() == old(Snap())
    {
      hide Fine;
      if condition && IsCooldown() && luck {
        UnitApplyAura();
      }
    }

    /** The front event of the queue runs; the routines of the effect are called for its own aura. */
    method RunFront(m: Measure)
      requires Valid() && HasFront(w)
      requires Suits(w, m)
      requires Front(w).Apply? && Front(w).key == key ==> m == Plain(fadeTime)
      modifies this
      ensures Valid() && Runs(It(), old(Now()), m, Now())
    {
      hide Turned;
      var e := Front(w);
      if e.key == key { NoTickInFront(w, key); }
      if e.key == key && e.Apply? {
        Rise();
      } else if e.key == key && key in w.auras && w.auras[key].guid == e.guid {
        Fade(m);
      } else {
        ghost var c, s := Config(key, cooldown, fadeTime), Snap();
        if e.key != key { TurnElseKeeps(c, s, m); } else { StaleKeeps(c, s, m); }
        hide Fine;
        w := Turned(w, m);
        assert Snap() == Turn(s, m);
      }
    }

    /** An application of the aura is in front. */
    method Rise()
      requires Valid() && HasFront(w) && Front(w).Apply? && Front(w).key == key
      modifies this
      ensures Valid() && Turns(old(w), Plain(fadeTime), w) && base == old(base) && lastTime == old(lastTime)
      ensures applied && log == old(log) + [Rose(old(w).now)] && Lifted(boost, 1, old(stat), stat)
    {
      ghost var c, s := Config(key, cooldown, fadeTime), Snap();
      RisesFromNothing(c, s);
      RisingKeeps(c, s);
      hide Fine;
      hide Turned;
      AuraApplicationRoutine();
      asked, log := None, log + [Rose(w.now)];
      w := Turned(w, Plain(fadeTime));
      assert Snap() == Rising(s, Plain(fadeTime));
    }

    /** The removal of the aura is in front. */
    method Fade(m: Measure)
      requires Valid() && HasFront(w) && Front(w).Remove? && Front(w).key == key && key in w.auras
      requires w.auras[key].guid == Front(w).guid
      modifies this
      ensures Valid() && Turns(old(w), m, w) && base == old(base) && lastTime == old(lastTime)
      ensures !applied && log == old(log) + [Faded(old(w).now)] && stat == base && Lifted(boost, 1, stat, old(stat))
    {
      ghost var c, s := Config(key, cooldown, fadeTime), Snap();
      FallingKeeps(c, s, m);
      hide Fine;
      hide Turned;
      hide Up;
      AuraFadeRoutine();
      log := log + [Faded(w.now)];
      w := Turned(w, m);
      assert Snap() == Falling(s, m);
    }

    /** The effect's part of `AuraApplicationRoutine`. */
    method AuraApplicationRoutine()
      modifies `stat, `applied
      ensures applied && stat == Up(boost, old(stat)) && Lifted(boost, 1, old(stat), stat)
    {
      UpLifts(boost, stat);
      stat := Up(boost, stat);
      applied := true;
    }

    /** The effect's part of `AuraFadeRoutine`: what was given is taken back. */
    method AuraFadeRoutine()
      requires stat == Up(boost, base)
      modifies `stat, `applied
      ensures !applied && stat == base && Lifted(boost, 1, stat, old(stat))
    {
      UpLifts(boost, base);
      DownUp(boost, base);
      stat := Down(boost, stat);
      applied := false;
    }

    method Step(x: Choice)
      requires Valid()
      modifies this
      ensures Valid() && Happens(It(), old(Now()), x, Now())
    {
      hide Fine;
      hide Turned;
      hide Up;
      hide Lifted;
      hide Append;
      ghost var c := Config(key, cooldown, fadeTime);
      match x {
        case TryProc(condition, luck) => Proc(condition, luck);
        case TryUse => Use();
        case ApplyOther(e) =>
          if e.Apply? && e.key != key {
            ElsewhereKeeps(c, Snap(), e);
            w := w.(q := Append(w.q, w.now, e));
          }
        case BoostOther(b) =>
          if b.Haste? == boost.Haste? {
            Commute(b, boost, base);
            UpLifts(b, base);
            UpLifts(b, stat);
            base := Up(b, base);
            stat := Up(b, stat);
          }
        case NextEvent(m) =>
          if HasFront(w) {
            var e := Front(w);
            var n := if !(e.Apply? && e.key == key) then m else Plain(fadeTime);
            if e.Apply? && e.key == key { RisesFromNothing(c, Snap()); }
            if Suits(w, n) {
              RunFront(n);
            }
          }
        case Wait(until) =>
          if w.now <= until && forall t :: t in w.q ==> until <= t {
            WaitKeeps(c, Snap(), until);
            w := w.(now := until);
          }
      }
    }

    /** Whatever happens, applications and fades take turns; in between the statistic is raised, once, and after every
        fade it is what it would have been. */
    method Run(choices: seq<Choice>) returns (ghost moments: seq<Moment>)
      requires Valid()
      modifies this
      ensures Valid() && Alternating(Config(key, cooldown, fadeTime), log)
      ensures Lifted(boost, if log != [] && log[|log| - 1].Rose? then 1 else 0, base, stat)
      ensures log == [] || log[|log| - 1].Faded? ==> stat == base
      ensures History(It(), choices, moments) && moments[0] == old(Now()) && moments[|choices|] == Now()
    {
      hide Fine;
      hide Alternating;
      hide Up;
      hide Happens;
      hide History;
      moments := [Now()];
      HistoryNone(It(), choices, moments[0]);
      assert History(It(), choices[..0], moments);
      for i := 0 to |choices|
        invariant Valid() && |moments| == i + 1 && moments[0] == old(Now()) && moments[i] == Now()
        invariant History(It(), choices[..i], moments)
      {
        Step(choices[i]);
        HistoryMore(It(), choices[..i], moments, choices[i], Now());
        moments := moments + [Now()];
        assert choices[..i + 1] == choices[..i] + [choices[i]];
      }
      assert choices[..|choices|] == choices;
      FineLog(Config(key, cooldown, fadeTime), Snap());
      UpLifts(boost, base);
    }
  }

  lemma FineLog(c: Config, s: State)
    requires Fine(c, s)
    ensures Alternating(c, s.log) && (s.applied <==> s.log != [] && s.log[|s.log| - 1].Rose?)
  {
    if s.log != [] { LastEntry(c, s.log); }
  }
}
