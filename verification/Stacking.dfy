/**
  Effects that stack: every proc raises the statistic once more, up to a maximum, and the fade of the aura
  takes everything back.
 */
module Stacking {
  import opened Basics
  import opened Queues
  import opened Auras
  import opened EffectWorld
  import opened Effects

  datatype Limits = Limits(key: Key, cooldown: nat, fadeTime: nat, max: nat)

  /** `late`: the aura was made by an application that was to refresh an older one, and adds no stack. */
  datatype Stacked = Stacked(w: World, last: Option<nat>, stacks: nat, asked: Option<Event>, late: bool)

  function Wanted(c: Limits, stacks: nat): Event { Apply(c.key, if stacks < c.max then 1 else 0, c.fadeTime, true) }

  ghost predicate OnItsWay(c: Limits, s: Stacked) {
    && Asked(s.w, c.key, s.asked) && (s.last.Some? ==> s.last.value <= s.w.now)
    && (s.asked.Some? ==> s.last == Some(s.w.now) && s.asked.value.Apply?)
    && (s.asked.Some? ==> s.asked.value.stacks <= 1 && s.asked.value.duration == c.fadeTime)
    && (s.asked.Some? && c.key in s.w.auras ==> s.asked.value == Wanted(c, s.stacks))
  }

  /** The aura is there when there are stacks, and shows how many, but for the one that a late application hides. */
  ghost predicate Counted(c: Limits, s: Stacked) {
    && s.stacks <= c.max && (c.key in s.w.auras <==> s.stacks > 0)
    && (c.key in s.w.auras ==> s.w.auras[c.key].stacks + (if s.late then 1 else 0) == s.stacks)
  }

  ghost predicate Sound(c: Limits, s: Stacked) {
    c.max >= 1 && Inv(s.w) && NeverTicks(s.w, c.key) && OnItsWay(c, s) && Counted(c, s)
  }

  predicate Cool(c: Limits, s: Stacked) { s.last.None? || s.w.now as int - s.last.value as int > c.cooldown as int }

  function Wanting(c: Limits, s: Stacked): Stacked {
    var e := Wanted(c, s.stacks);
    s.(w := s.w.(q := Append(s.w.q, s.w.now, e)), last := Some(s.w.now), asked := Some(e))
  }

  lemma WantingKeeps(c: Limits, s: Stacked)
    requires Sound(c, s) && Cool(c, s)
    ensures Sound(c, Wanting(c, s))
  {
    AskedNow(s.w, c.key, Wanted(c, s.stacks));
    AppliesLater(s.w, s.w.now, Wanted(c, s.stacks));
    hide Inv;
    hide Append;
    hide Asked;
  }

  function Next(s: Stacked, m: Measure): Stacked
    requires Inv(s.w) && HasFront(s.w)
    requires Suits(s.w, m)
  {
    s.(w := Turned(s.w, m))
  }

  lemma NextElseKeeps(c: Limits, s: Stacked, m: Measure)
    requires Sound(c, s) && HasFront(s.w) && Front(s.w).key != c.key
    requires Suits(s.w, m)
    ensures Sound(c, Next(s, m))
  {
    var h := Next(s, m);
    TurnedKeeps(s.w, m);
    TurnedMoved(s.w, m, c.key);
    TurnedElse(s.w, m, c.key);
    TurnedNow(s.w, m);
    NeverTicksTurned(s.w, m, c.key);
    hide Inv;
    hide Turned;
    AskedMoved(s.w, h.w, c.key, s.asked, Front(s.w));
    hide Moved;
    hide Asked;
    hide NeverTicks;
  }

  /** The aura is made, or refreshed; it gets a stack unless there are enough. */
  function Grown(c: Limits, s: Stacked, m: Measure): Stacked
    requires Inv(s.w) && HasFront(s.w) && Front(s.w).Apply?
    requires Suits(s.w, m)
  {
    Stacked(Turned(s.w, m), s.last, if s.stacks < c.max then s.stacks + 1 else s.stacks, None,
            if c.key in s.w.auras then s.late else Front(s.w).stacks == 0)
  }

  lemma AskedFront(c: Limits, s: Stacked)
    requires Sound(c, s) && HasFront(s.w) && Applies(Front(s.w), c.key)
    ensures s.asked == Some(Front(s.w))
  {
    assert At(s.w.q, s.w.now, 0, Front(s.w));
  }

  lemma GrownKeeps(c: Limits, s: Stacked)
    requires Sound(c, s) && HasFront(s.w) && Applies(Front(s.w), c.key)
    ensures Fits(Plain(c.fadeTime), Front(s.w).duration) && Sound(c, Grown(c, s, Plain(c.fadeTime)))
  {
    var m := Plain(c.fadeTime);
    AskedFront(c, s);
    TurnedKeeps(s.w, m);
    AskedRan(s.w, m, c.key);
    NeverTicksTurned(s.w, m, c.key);
    TurnedNow(s.w, m);
    if c.key in s.w.auras { TurnedRefreshed(s.w, m); } else { TurnedFresh(s.w, m); }
    hide Inv;
    hide Turned;
    hide Asked;
    hide NeverTicks;
  }

  lemma GrownIs(c: Limits, s: Stacked) returns (h: Stacked)
    requires Sound(c, s) && HasFront(s.w) && Applies(Front(s.w), c.key)
    ensures Inv(s.w) && Suits(s.w, Plain(c.fadeTime)) && Sound(c, h) && Turns(s.w, Plain(c.fadeTime), h.w)
    ensures h == Stacked(Turned(s.w, Plain(c.fadeTime)), s.last, if s.stacks < c.max then s.stacks + 1 else s.stacks,
                         None, if c.key in s.w.auras then s.late else Front(s.w).stacks == 0)
  {
    GrownKeeps(c, s);
    assert Inv(s.w);
    hide Inv;
    hide Sound;
    hide Turned;
    h := Grown(c, s, Plain(c.fadeTime));
  }

  /** A removal of the aura, which may come too early or too late. */
  function Shrunk(c: Limits, s: Stacked, m: Measure): Stacked
    requires Inv(s.w) && HasFront(s.w) && Front(s.w).Remove?
  {
    if GoesNow(c, s) then s.(w := Turned(s.w, m), stacks := 0) else s.(w := Turned(s.w, m))
  }

  predicate GoesNow(c: Limits, s: Stacked)
    requires HasFront(s.w) && Front(s.w).Remove?
  {
    c.key in s.w.auras && s.w.auras[c.key].guid == Front(s.w).guid && s.w.auras[c.key].fade <= s.w.now
  }

  lemma ShrunkKeeps(c: Limits, s: Stacked, m: Measure)
    requires Sound(c, s) && HasFront(s.w) && Front(s.w).Remove? && Front(s.w).key == c.key
    ensures Sound(c, Shrunk(c, s, m))
  {
    var h := Shrunk(c, s, m);
    TurnedKeeps(s.w, m);
    RemovalMoved(s.w, m);
    TurnedNow(s.w, m);
    NeverTicksTurned(s.w, m, c.key);
    if c.key !in s.w.auras || s.w.auras[c.key].guid != Front(s.w).guid { TurnedStale(s.w, m); }
    else if GoesNow(c, s) { TurnedGone(s.w, m); }
    else { TurnedDelayed(s.w, m); }
    hide Inv;
    hide Turned;
    AskedMoved(s.w, h.w, c.key, s.asked, Front(s.w));
    hide Moved;
    hide Asked;
    hide NeverTicks;
  }

  lemma AsideKeeps(c: Limits, s: Stacked, e: Event)
    requires Sound(c, s) && e.Apply? && e.key != c.key
    ensures Sound(c, s.(w := s.w.(q := Append(s.w.q, s.w.now, e))))
  {
    AppliesLater(s.w, s.w.now, e);
    AskedElse(s.w, c.key, s.asked, e);
    hide Append;
    hide Inv;
    hide Asked;
  }

  lemma LaterKeeps(c: Limits, s: Stacked, now: nat)
    requires Sound(c, s) && s.w.now <= now && forall t :: t in s.w.q ==> now <= t
    ensures Sound(c, s.(w := s.w.(now := now)))
  {
    ClockMoves(s.w, now);
    AskedLater(s.w, c.key, s.asked, now);
    hide Inv;
    hide Asked;
  }

  /** All there is to know of an effect at a time. */
  datatype Instant = Instant(s: Stacked, stat: real, base: real)

  /** The aura has been asked for, at once, with one more stack if there may be one. */
  ghost predicate StackAsked(c: Limits, s: Stacked, t: Stacked) {
    && t.w == s.w.(q := Append(s.w.q, s.w.now, Apply(c.key, if s.stacks < c.max then 1 else 0, c.fadeTime, true)))
    && t.last == Some(s.w.now) && t.stacks == s.stacks
  }

  /** The front event has run, which takes the effect's part of its routine with it. */
  ghost predicate Stacks(c: Limits, boost: Boost, a: Instant, m: Measure, b: Instant)
    requires HasFront(a.s.w)
  {
    var e := Front(a.s.w);
    && Turns(a.s.w, m, b.s.w) && b.base == a.base && b.s.last == a.s.last
    && b.s.late == (if Applies(e, c.key) && c.key !in a.s.w.auras then e.stacks == 0 else a.s.late)
    && if Applies(e, c.key) && a.s.stacks < c.max then
         b.s.stacks == a.s.stacks + 1 && Lifted(boost, 1, a.stat, b.stat)
       else if e.Remove? && e.key == c.key && GoesNow(c, a.s) then
         b.s.stacks == 0 && Lifted(boost, a.s.stacks, b.stat, a.stat)
       else b.s.stacks == a.s.stacks && b.stat == a.stat
  }

  /** What comes of a choice: everything as it was where nothing is said of it. */
  ghost predicate Occurs(c: Limits, boost: Boost, a: Instant, x: Choice, b: Instant) {
    match x
    case TryProc(condition, luck) =>
      && b.stat == a.stat && b.base == a.base
      && if condition && luck && Cool(c, a.s) then StackAsked(c, a.s, b.s) else b == a
    case TryUse => b == a
    case ApplyOther(e) =>
      if e.Apply? && e.key != c.key then b == a.(s := a.s.(w := a.s.w.(q := Append(a.s.w.q, a.s.w.now, e)))) else b == a
    case BoostOther(o) =>
      if o.Haste? == boost.Haste? then b.s == a.s && Lifted(o, 1, a.stat, b.stat) && Lifted(o, 1, a.base, b.base)
      else b == a
    case NextEvent(m) =>
      if !HasFront(a.s.w) then b == a
      else
        var n := if Applies(Front(a.s.w), c.key) then Plain(c.fadeTime) else m;
        if Suits(a.s.w, n) then Stacks(c, boost, a, n, b) else b == a
    case Wait(until) =>
      if a.s.w.now <= until && forall t :: t in a.s.w.q ==> until <= t
      then b == a.(s := a.s.(w := a.s.w.(now := until))) else b == a
  }

  /** The history that the choices make. */
  ghost predicate Course(c: Limits, boost: Boost, choices: seq<Choice>, moments: seq<Instant>) {
    && |moments| == |choices| + 1
    && forall k :: 0 <= k < |choices| ==> Occurs(c, boost, moments[k], choices[k], moments[k + 1])
  }

  lemma CourseNone(c: Limits, boost: Boost, choices: seq<Choice>, b: Instant)
    ensures Course(c, boost, choices[..0], [b])
  {}

  lemma CourseMore(c: Limits, boost: Boost, choices: seq<Choice>, moments: seq<Instant>, x: Choice, b: Instant)
    requires Course(c, boost, choices, moments) && Occurs(c, boost, moments[|choices|], x, b)
    ensures Course(c, boost, choices + [x], moments + [b])
  {
    hide Occurs;
  }

  /** `EffectStackableProto`, and the statistic of the player that it raises. */
  class StackableEffect {
    const key: Key
    const cooldown: nat
    const fadeTime: nat
    const maxStacks: nat
    const boost: Boost
    var w: World
    var lastTime: Option<nat>
    var stacks: nat
    var stat: real
    /** What the statistic would be without the effect. */
    ghost var base: real
    ghost var asked: Option<Event>
    ghost var late: bool

    ghost function Snap(): Stacked
      reads this
    {
      Stacked(w, lastTime, stacks, asked, late)
    }

    ghost function Now(): Instant
      reads this
    {
      Instant(Snap(), stat, base)
    }

    ghost function Config(): Limits
      reads this
    {
      Limits(key, cooldown, fadeTime, maxStacks)
    }

    ghost predicate Valid()
      reads this
    {
      Sound(Config(), Snap()) && stat == Raised(boost, stacks, base)
    }

    constructor (key: Key, cooldown: nat, fadeTime: nat, maxStacks: nat, boost: Boost, stat: real)
      requires maxStacks >= 1
      ensures Valid() && stacks == 0 && this.stat == stat == base
      ensures this.key == key && this.cooldown == cooldown && this.fadeTime == fadeTime && this.maxStacks == maxStacks
      ensures this.boost == boost
    {
      this.key, this.cooldown, this.fadeTime, this.maxStacks, this.boost := key, cooldown, fadeTime, maxStacks, boost;
      w := World(0, map[], map[], 0, map[]);
      lastTime, stacks, this.stat, base, asked, late := None, 0, stat, stat, None, false;
    }

    /** `IsCooldown`. */
    predicate IsCooldown()
      reads this
    {
      lastTime.None? || w.now as int - lastTime.value as int > cooldown
    }

    /** `Proc`: with all the stacks there can be, the aura is only refreshed. */
    method Proc(condition: bool, luck: bool)
      requires Valid()
      modifies `w, `lastTime, `asked
      ensures Valid()
      ensures if condition && luck && old(IsCooldown()) then StackAsked(Config(), old(Snap()), Snap())
              else Snap() == old(Snap())
    {
      hide Sound;
      hide Append;
      hide Raised;
      if condition && IsCooldown() && luck {
        ghost var c, s := Config(), Snap();
        WantingKeeps(c, s);
        lastTime := Some(w.now);
        if stacks < maxStacks {
          w := w.(q := Append(w.q, w.now, Apply(key, 1, fadeTime, true)));
        } else {
          w := w.(q := Append(w.q, w.now, Apply(key, 0, fadeTime, true)));
        }
        asked := Some(Wanted(c, stacks));
        assert Snap() == Wanting(c, s);
      }
    }

    /** The effect's part of `AuraApplicationRoutine`. */
    method AuraApplicationRoutine()
      requires stat == Raised(boost, stacks, base)
      modifies `stat, `stacks
      ensures stacks == (if old(stacks) < maxStacks then old(stacks) + 1 else old(stacks))
      ensures stat == Raised(boost, stacks, base)
      ensures if old(stacks) < maxStacks then Lifted(boost, 1, old(stat), stat) else stat == old(stat)
    {
      UpLifts(boost, stat);
      if stacks < maxStacks {
        stat := Up(boost, stat);
        stacks := stacks + 1;
      }
    }

    /** The effect's part of `AuraFadeRoutine`: every stack is taken back. */
    method AuraFadeRoutine()
      requires stat == Raised(boost, stacks, base)
      modifies `stat, `stacks
      ensures stacks == 0 && stat == base && Lifted(boost, old(stacks), stat, old(stat))
    {
      RaisedLifts(boost, stacks, base);
      var i := 0;
      while i < stacks
        invariant 0 <= i <= stacks == old(stacks) && stat == Raised(boost, stacks - i, base)
      {
        DownUp(boost, Raised(boost, stacks - i - 1, base));
        stat := Down(boost, stat);
        i := i + 1;
      }
      stacks := 0;
    }

    /** The front event of the queue runs; the routines of the effect are called for its own aura. */
    method RunFront(m: Measure)
      requires Valid() && HasFront(w)
      requires Suits(w, m)
      requires Applies(Front(w), key) ==> m == Plain(fadeTime)
      modifies `w, `stat, `stacks, `asked, `late
      ensures Valid() && Stacks(Config(), boost, old(Now()), m, Now())
    {
      hide Turned;
      hide Raised;
      var e := Front(w);
      if e.key == key { NoTickInFront(w, key); }
      if e.key == key && e.Apply? {
        Grow();
      } else if e.key == key {
        Shrink(m);
      } else {
        ghost var c, s := Config(), Snap();
        NextElseKeeps(c, s, m);
        hide Sound;
        w := Turned(w, m);
        assert Snap() == Next(s, m);
      }
    }

    /** An application of the aura is in front. */
    method Grow()
      requires Valid() && HasFront(w) && Applies(Front(w), key)
      modifies `w, `stat, `stacks, `asked, `late
      ensures Valid() && Turns(old(w), Plain(fadeTime), w)
      ensures stacks == if old(stacks) < maxStacks then old(stacks) + 1 else old(stacks)
      ensures if old(stacks) < maxStacks then Lifted(boost, 1, old(stat), stat) else stat == old(stat)
      ensures late == if key in old(w).auras then old(late) else Front(old(w)).stacks == 0
    {
      hide Lifted;
      hide Inv;
      hide Turns;
      hide Turned;
      hide Suits;
      hide Raised;
      ghost var c, s := Config(), Snap();
      ghost var h := GrownIs(c, s);
      assert stacks <= maxStacks;
      hide Sound;
      var e := Front(w);
      AuraApplicationRoutine();
      asked := None;
      late := if key in w.auras then late else e.stacks == 0;
      w := Turned(w, Plain(fadeTime));
      assert Snap() == h && Config() == c;
    }

    /** A removal of the aura is in front. */
    method Shrink(m: Measure)
      requires Valid() && HasFront(w) && Front(w).Remove? && Front(w).key == key
      modifies `w, `stat, `stacks
      ensures Valid() && Turns(old(w), m, w)
      ensures if old(GoesNow(Config(), Snap())) then stacks == 0 && Lifted(boost, old(stacks), stat, old(stat))
              else stacks == old(stacks) && stat == old(stat)
    {
      hide Lifted;
      ghost var c, s := Config(), Snap();
      var e := Front(w);
      ShrunkKeeps(c, s, m);
      hide Sound;
      hide Turned;
      if key in w.auras && w.auras[key].guid == e.guid && w.auras[key].fade <= w.now {
        AuraFadeRoutine();
      }
      hide Raised;
      w := Turned(w, m);
      assert Snap() == Shrunk(c, s, m);
    }

    method Step(x: Choice)
      requires Valid()
      modifies this
      ensures Valid() && Occurs(Config(), boost, old(Now()), x, Now())
    {
      hide Sound;
      hide Turned;
      hide Up;
      hide Raised;
      hide Lifted;
      hide Append;
      ghost var c := Config();
      match x {
        case TryProc(condition, luck) => Proc(condition, luck);
        case TryUse =>
        case ApplyOther(e) =>
          if e.Apply? && e.key != key {
            AsideKeeps(c, Snap(), e);
            w := w.(q := Append(w.q, w.now, e));
          }
        case BoostOther(b) =>
          if b.Haste? == boost.Haste? {
            RaisedOther(boost, b, stacks, base);
            UpLifts(b, base);
            UpLifts(b, stat);
            base := Up(b, base);
            stat := Up(b, stat);
          }
        case NextEvent(m) =>
          if HasFront(w) {
            var e := Front(w);
            var n := if !(e.Apply? && e.key == key) then m else Plain(fadeTime);
            if Suits(w, n) {
              RunFront(n);
            }
          }
        case Wait(until) =>
          if w.now <= until && forall t :: t in w.q ==> until <= t {
            LaterKeeps(c, Snap(), until);
            w := w.(now := until);
          }
      }
    }

    /** Whatever happens, the statistic is what it would have been, raised once for every stack, and not raised when the
        aura is gone; and the aura shows the stacks there are, but for the one that a late application hides. */
    method Run(choices: seq<Choice>) returns (ghost moments: seq<Instant>)
      requires Valid()
      modifies this
      ensures Valid() && Lifted(boost, stacks, base, stat) && stacks <= maxStacks
      ensures (key !in w.auras ==> stat == base)
      ensures key in w.auras ==> w.auras[key].stacks == if late then stacks - 1 else stacks
      ensures Course(Config(), boost, choices, moments) && moments[0] == old(Now()) && moments[|choices|] == Now()
    {
      hide Sound;
      hide Raised;
      hide Lifted;
      hide Occurs;
      hide Course;
      moments := [Now()];
      CourseNone(Config(), boost, choices, Now());
      for i := 0 to |choices|
        invariant Valid() && |moments| == i + 1 && moments[0] == old(Now()) && moments[i] == Now()
        invariant Course(Config(), boost, choices[..i], moments)
      {
        Step(choices[i]);
        CourseMore(Config(), boost, choices[..i], moments, choices[i], Now());
        moments := moments + [Now()];
        assert choices[..i + 1] == choices[..i] + [choices[i]];
      }
      assert choices[..|choices|] == choices;
      SoundCounts(Config(), Snap());
      RaisedLifts(boost, stacks, base);
      RaisedNone(boost, base);
    }
  }

  lemma RaisedNone(b: Boost, x: real)
    ensures Raised(b, 0, x) == x
  {}

  lemma SoundCounts(c: Limits, s: Stacked)
    requires Sound(c, s)
    ensures Counted(c, s)
  {}
}
