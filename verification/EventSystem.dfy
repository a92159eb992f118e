/**
  The simulator's event loop: a clock, events queued by time, and the handlers that apply, remove and
  tick auras. What the scripts called from the handlers do is an arbitrary script.
 */
module EventSystem {
  import opened Basics
  import opened Auras
  import opened EffectWorld
  import opened Queues

  /** What one call into a script may do: apply auras, and change the haste from then on. */
  datatype Hook = Hook(adds: seq<Event>, haste: real, extra: real)

  /** `GetCastTimeWithHaste`. */
  function Hasted(time: nat, haste: real, extra: real): int
    requires haste > -1.0 && extra > -1.0
  {
    (time as real / (1.0 + haste) / (1.0 + extra)).Floor
  }

  lemma DivPositive(x: real, y: real)
    requires x >= 0.0 && y > 0.0
    ensures x / y >= 0.0
  {
    var q := x / y;
    assert q * y == x;
    assert q < 0.0 ==> q * y < 0.0;
  }

  lemma HastedNat(time: nat, haste: real, extra: real)
    requires haste > -1.0 && extra > -1.0
    ensures Hasted(time, haste, extra) >= 0
  {
    DivPositive(time as real, 1.0 + haste);
    DivPositive(time as real / (1.0 + haste), 1.0 + extra);
  }

  /** What it means for a time to be shortened to `n` by haste: `n` is as long as it can be so that, slowed down again,
      it is within the time. */
  ghost predicate Shortened(n: int, time: nat, haste: real, extra: real) {
    n as real * (1.0 + haste) * (1.0 + extra) <= time as real < (n + 1) as real * (1.0 + haste) * (1.0 + extra)
  }

  lemma Scaled(x: real, y: real, c: real)
    requires c > 0.0
    ensures x <= y <==> x * c <= y * c
  {
    if x <= y { assert (y - x) * c >= 0.0; } else { assert (x - y) * c > 0.0; }
  }

  lemma Quotient(x: real, c: real)
    requires c > 0.0
    ensures x / c * c == x
  {}

  lemma Below(n: int, time: real, a: real, b: real)
    requires a > 0.0 && b > 0.0
    ensures n as real <= time / a / b <==> n as real * a * b <= time
  {
    var q := time / a;
    Quotient(q, b);
    Quotient(time, a);
    Scaled(n as real, q / b, b);
    Scaled(n as real * b, q, a);
    assert n as real * b * a == n as real * a * b;
  }

  lemma HastedIs(time: nat, haste: real, extra: real)
    requires haste > -1.0 && extra > -1.0
    ensures Shortened(Hasted(time, haste, extra), time, haste, extra)
  {
    var n := Hasted(time, haste, extra);
    Below(n, time as real, 1.0 + haste, 1.0 + extra);
    Below(n + 1, time as real, 1.0 + haste, 1.0 + extra);
  }

  /** No other number is what the time is shortened to, and with more haste it is no longer. */
  lemma MoreHaste(time: nat, haste: real, extra: real, n: int, haste1: real, extra1: real, n1: nat)
    requires -1.0 < haste <= haste1 && -1.0 < extra <= extra1
    requires Shortened(n, time, haste, extra) && Shortened(n1, time, haste1, extra1)
    ensures n1 <= n
  {
    if n1 > n { ScaledBoth((n + 1) as real, n1 as real, 1.0 + haste, 1.0 + extra, 1.0 + haste1, 1.0 + extra1); }
  }

  lemma ScaledBoth(x: real, y: real, a: real, b: real, a1: real, b1: real)
    requires x <= y && 0.0 <= y && 0.0 < a <= a1 && 0.0 < b <= b1
    ensures x * a * b <= y * a1 * b1
  {
    Scaled(x, y, a);
    Larger(y, a, a1);
    var p, q := x * a, y * a1;
    assert p <= y * a <= q;
    Scaled(p, q, b);
    Larger(q, b, b1);
    assert p * b <= q * b <= q * b1;
  }

  lemma Larger(c: real, x: real, y: real)
    requires c >= 0.0 && 0.0 < x <= y
    ensures 0.0 <= c * x <= c * y
  {
    assert c * (y - x) >= 0.0;
  }

  lemma OneShortened(time: nat, haste: real, extra: real, n: nat, n1: nat)
    requires haste > -1.0 && extra > -1.0 && Shortened(n, time, haste, extra) && Shortened(n1, time, haste, extra)
    ensures n == n1
  {
    MoreHaste(time, haste, extra, n, haste, extra, n1);
    MoreHaste(time, haste, extra, n1, haste, extra, n);
  }

  function Product(a: nat, b: nat): nat { a * b }

  /**
    How long an aura will last and how often it will tick: a new one, with haste, as many times in less time; when one
    that is there already is refreshed, the time is only divided by the haste.
   */
  function MeasureOf(d: Def, duration: nat, known: bool, haste: real, extra: real): Measure
    requires haste > -1.0 && extra > -1.0 && (d.hasteEnabled ==> d.period >= 1)
  {
    HastedNat(d.period, haste, extra);
    HastedNat(duration, haste, extra);
    var c := if d.hasteEnabled then Hasted(d.period, haste, extra) else d.period;
    if known then Plain(if d.hasteEnabled then Hasted(duration, haste, extra) else duration)
    else Measure(if d.hasteEnabled && duration != 0 then Product(c, duration / d.period) else duration, d.period,
                 if d.periodic then c else 0, d.hasteEnabled)
  }

  lemma MeasureFits(d: Def, duration: nat, haste: real, extra: real)
    requires haste > -1.0 && extra > -1.0 && (d.periodic ==> d.period >= 1) && (d.hasteEnabled ==> d.periodic)
    requires d.hasteEnabled ==> Hasted(d.period, haste, extra) >= 1
    ensures Fits(MeasureOf(d, duration, false, haste, extra), duration)
  {}

  /** Events added to the current instant. */
  function Added(q: Queue<Event>, now: nat, adds: seq<Event>): Queue<Event> {
    if adds == [] then q else q[now := (if now in q then q[now] else []) + adds]
  }

  lemma AddedMore(q: Queue<Event>, now: nat, adds: seq<Event>, e: Event)
    ensures Append(Added(q, now, adds), now, e) == Added(q, now, adds + [e])
  {
    var here := if now in q then q[now] else [];
    assert here + (adds + [e]) == here + adds + [e];
    assert adds == [] ==> adds + [e] == [e];
  }

  /** Of all auras only that of the event may have changed. */
  ghost predicate OthersKept(w: World, k: Key, r: World) {
    forall j :: j != k ==> (j in r.auras <==> j in w.auras) && (j in w.auras ==> r.auras[j] == w.auras[j])
  }

  /** What comes of an application of an aura that is not there: an aura that lasts as many of its shortened periods `c`
      as its duration has periods, with its removal and its first tick waiting. */
  ghost predicate Made(d: Def, w: World, e: Event, r: World, haste: real, extra: real, c: nat)
    requires e.Apply?
  {
    && e.key in r.auras && OthersKept(w, e.key, r)
    && (if d.hasteEnabled then Shortened(c, d.period, haste, extra) && d.period > 0 else c == d.period)
    && var a, full := r.auras[e.key], if d.hasteEnabled then c * (e.duration / d.period) else e.duration;
       && a.guid == w.counter + 1 == r.counter && a.stacks == e.stacks
       && a.fade == (if full == 0 then 0 else w.now + full + 1)
       && (full > 0 ==> Pending(r.q, w.now + full + 1, Remove(e.key, a.guid)))
       && (d.periodic ==> c > 0 && Pending(r.q, w.now + c, Tick(e.key, a.guid, c)))
  }

  /** What comes of an application of an aura that is there: more stacks, and, if asked for, a new fade time, after the
      duration shortened to `f`. */
  ghost predicate Renewed(d: Def, w: World, e: Event, r: World, haste: real, extra: real, f: nat)
    requires e.Apply?
  {
    && e.key in w.auras && e.key in r.auras && OthersKept(w, e.key, r) && r.counter == w.counter
    && (if d.hasteEnabled then Shortened(f, e.duration, haste, extra) else f == e.duration)
    && r.auras[e.key] == Aura(w.auras[e.key].guid,
                              if !e.setFade then w.auras[e.key].fade else if f == 0 then 0 else w.now + f + 1,
                              w.auras[e.key].stacks + e.stacks)
  }

  /** What comes of an event, in plain terms. */
  ghost predicate Handled(d: Def, w: World, e: Event, r: World, haste: real, extra: real) {
    match e
    case Apply(k, _, _, _) =>
      if k in w.auras then exists f: nat :: Renewed(d, w, e, r, haste, extra, f)
      else exists c: nat :: Made(d, w, e, r, haste, extra, c)
    case Remove(k, g) =>
      && r.counter == w.counter
      && if k !in w.auras || w.auras[k].guid != g then r.auras == w.auras
         else if w.auras[k].fade > w.now then r.auras == w.auras && Pending(r.q, w.auras[k].fade, e)
         else r.auras == w.auras - {k}
    case Tick(k, g, period) =>
      && r.counter == w.counter && r.auras == w.auras
      && (k in w.auras && w.auras[k].guid == g && w.now + period <= w.auras[k].fade ==>
            Pending(r.q, w.now + period, e))
  }

  lemma TurnedHandled(d: Def, w: World, e: Event, m: Measure, haste: real, extra: real)
    requires Inv(w) && HasFront(w) && Front(w) == e && !e.Apply?
    ensures Handled(d, w, e, Turned(w, m), haste, extra)
  {
    FrontKnown(w);
    var g := e.guid;
    if Live(w, g) {
      var again := e.Tick? && w.now + e.period <= w.auras[e.key].fade;
      if e.Tick? { RequeuedAt(w.q, w.now, again, w.now + e.period); }
      if e.Remove? && w.auras[e.key].fade > w.now { RequeuedAt(w.q, w.now, true, w.auras[e.key].fade); }
    }
    hide Requeued;
    hide DropFront;
    hide Inv;
    hide At;
  }

  lemma NewHandled(d: Def, w: World, e: Event, haste: real, extra: real)
    requires Inv(w) && HasFront(w) && Front(w) == e && e.Apply? && e.key !in w.auras && haste > -1.0 && extra > -1.0
    requires (d.periodic ==> d.period >= 1) && (d.hasteEnabled ==> d.periodic)
    requires d.hasteEnabled ==> Hasted(d.period, haste, extra) >= 1
    ensures var m := MeasureOf(d, e.duration, false, haste, extra);
      Fits(m, e.duration) && Handled(d, w, e, Turned(w, m), haste, extra)
  {
    var m := MeasureOf(d, e.duration, false, haste, extra);
    MeasureFits(d, e.duration, haste, extra);
    HastedIs(d.period, haste, extra);
    var c: nat := if d.hasteEnabled then Hasted(d.period, haste, extra) else d.period;
    assert m.full == if d.hasteEnabled then c * (e.duration / d.period) else e.duration by {
      if d.hasteEnabled && e.duration == 0 { assert 0 / d.period == 0 && c * 0 == 0; }
    }
    assert d.periodic ==> m.period == c > 0;
    hide Fits;
    hide Inv;
    hide Shortened;
    hide Hasted;
    hide MeasureOf;
    BornWaiting(w, e, m, Turned(w, m));
    assert Made(d, w, e, Turned(w, m), haste, extra, c);
  }

  lemma TurnsBorn(w: World, e: Event, m: Measure, r: World) returns (h: World)
    requires Turns(w, m, r) && Front(w) == e && e.Apply? && e.key !in w.auras
    ensures h == Born(w, e.key, e.stacks, e.duration, m) && w.now in h.q && h.q[w.now] != [] && h.q[w.now][0] == e
    ensures r == h.(q := DropFront(h.q, w.now)) && Unheard(w.q, w.counter + 1)
  {
    AppliedKeeps(w, e, m);
    NothingHeard(w);
    hide Inv;
    hide Fits;
    hide BornQueue;
    hide DropFront;
    h := Applied(w, e, m);
  }

  /** A new aura, and what waits for it once its application is done with. */
  lemma BornWaiting(w: World, e: Event, m: Measure, r: World)
    requires Turns(w, m, r) && Front(w) == e && e.Apply? && e.key !in w.auras
    ensures var g := w.counter + 1;
      && r.counter == g && OthersKept(w, e.key, r)
      && r.auras == w.auras[e.key := Aura(g, if m.full == 0 then 0 else w.now + m.full + 1, e.stacks)]
      && (m.full > 0 ==> Pending(r.q, w.now + m.full + 1, Remove(e.key, g)))
      && (m.period > 0 ==> Pending(r.q, w.now + m.period, Tick(e.key, g, m.period)))
  {
    hide BornQueue;
    hide DropFront;
    hide Pending;
    var h := TurnsBorn(w, e, m, r);
    var g := w.counter + 1;
    hide Turns;
    BornAt(w.q, w.now, e.key, g, m.full, m.period);
    KeptPending(h.q, r.q, w.now, w.now + m.full + 1, Remove(e.key, g));
    KeptPending(h.q, r.q, w.now, w.now + m.period, Tick(e.key, g, m.period));
  }

  lemma NothingHeard(w: World)
    requires Inv(w)
    ensures Unheard(w.q, w.counter + 1)
  {
    hide At;
  }

  lemma TurnsRenewed(w: World, e: Event, m: Measure, r: World)
    requires Turns(w, m, r) && Front(w) == e && e.Apply? && e.key in w.auras
    ensures r.counter == w.counter && e.key in r.auras && OthersKept(w, e.key, r)
    ensures var a := w.auras[e.key];
      r.auras[e.key] == Aura(a.guid, if !e.setFade then a.fade else if m.full == 0 then 0 else w.now + m.full + 1,
                             a.stacks + e.stacks)
  {
    hide DropFront;
    hide Fits;
    hide Refreshed;
    hide OthersKept;
    AppliedKeeps(w, e, m);
    AurasKnown(w);
    hide Inv;
    var a := w.auras[e.key];
    var fade := if !e.setFade then a.fade else if m.full == 0 then 0 else w.now + m.full + 1;
    var h := Refreshed(w, e.key, a.stacks + e.stacks, fade, e.setFade);
    assert r.auras == h.auras && r.counter == h.counter;
    RefreshedAuras(w, e.key, a.stacks + e.stacks, fade, e.setFade);
    OthersSo(w, e.key, r, Aura(a.guid, fade, a.stacks + e.stacks));
  }

  lemma RefreshedAuras(w: World, key: Key, stacks: nat, fade: nat, setFade: bool)
    requires key in w.auras && w.auras[key].guid in w.life && (!setFade ==> fade == w.auras[key].fade)
    ensures var h := Refreshed(w, key, stacks, fade, setFade);
      h.counter == w.counter && h.auras == w.auras[key := Aura(w.auras[key].guid, fade, stacks)]
  {}

  lemma OthersSo(w: World, key: Key, r: World, a: Aura)
    requires r.auras == w.auras[key := a]
    ensures OthersKept(w, key, r)
  {}

  lemma RenewedHandled(d: Def, w: World, e: Event, haste: real, extra: real)
    requires Inv(w) && HasFront(w) && Front(w) == e && e.Apply? && e.key in w.auras && haste > -1.0 && extra > -1.0
    requires (d.hasteEnabled ==> d.period >= 1)
    ensures Handled(d, w, e, Turned(w, MeasureOf(d, e.duration, true, haste, extra)), haste, extra)
  {
    hide Inv;
    hide Fits;
    hide Turned;
    var m := MeasureOf(d, e.duration, true, haste, extra);
    HastedIs(e.duration, haste, extra);
    assert if d.hasteEnabled then Shortened(m.full, e.duration, haste, extra) else m.full == e.duration;
    hide Shortened;
    hide Hasted;
    hide MeasureOf;
    TurnsRenewed(w, e, m, Turned(w, m));
    assert Renewed(d, w, e, Turned(w, m), haste, extra, m.full);
  }

  lemma HandledSame(d: Def, h: World, w: World, e: Event, r: World, haste: real, extra: real)
    requires Handled(d, h, e, r, haste, extra) && h.auras == w.auras && h.now == w.now && h.counter == w.counter
    ensures Handled(d, w, e, r, haste, extra)
  {
    hide Pending;
    hide Shortened;
    if e.Apply? {
      if e.key in w.auras {
        var f: nat :| Renewed(d, h, e, r, haste, extra, f);
        assert Renewed(d, w, e, r, haste, extra, f);
      } else {
        var c: nat :| Made(d, h, e, r, haste, extra, c);
        assert Made(d, w, e, r, haste, extra, c);
      }
    }
  }

  /** What the database says of an aura is what its instances were made by. */
  ghost predicate Drawn(defs: map<nat, Def>, life: map<nat, Life>) {
    forall g :: g in life ==> DrawnOne(defs, life[g])
  }

  predicate DrawnOne(defs: map<nat, Def>, l: Life) {
    && l.key.1 in defs && l.base == defs[l.key.1].period && l.hasteEnabled == defs[l.key.1].hasteEnabled
    && (l.period != 0 <==> defs[l.key.1].periodic)
  }

  lemma DrawnTurned(defs: map<nat, Def>, w: World, m: Measure)
    requires Inv(w) && HasFront(w) && Suits(w, m) && Drawn(defs, w.life) && Front(w).key.1 in defs
    requires Front(w).Apply? && Front(w).key !in w.auras ==>
               var d := defs[Front(w).key.1];
               m.base == d.period && m.hasteEnabled == d.hasteEnabled && (m.period != 0 <==> d.periodic)
    ensures Drawn(defs, Turned(w, m).life)
  {
    var e := Front(w);
    if e.Apply? { AppliedKeeps(w, e, m); } else { FrontKnown(w); }
    AurasKnown(w);
    hide Inv;
    hide Requeued;
    hide DropFront;
    hide BornQueue;
  }

  /** The events of a new aura come later than now. */
  lemma BornFront(q: Queue<Event>, now: nat, key: Key, g: nat, full: nat, period: nat)
    requires now in q
    ensures var r := BornQueue(q, now, key, g, full, period); now in r && r[now] == q[now]
  {}

  /** A script keeps to the auras there are, and never makes a period vanish. */
  predicate Tame(defs: map<nat, Def>, h: Hook) {
    && h.haste > -1.0 && h.extra > -1.0
    && (forall a :: a in defs && defs[a].hasteEnabled ==> Hasted(defs[a].period, h.haste, h.extra) >= 1)
    && (forall i :: 0 <= i < |h.adds| ==> h.adds[i].Apply? && h.adds[i].key.1 in defs)
  }

  lemma NoHaste(defs: map<nat, Def>)
    requires forall a :: a in defs && defs[a].hasteEnabled ==> defs[a].period >= 1
    ensures forall a :: a in defs && defs[a].hasteEnabled ==> Hasted(defs[a].period, 0.0, 0.0) >= 1
  {
    forall a | a in defs && defs[a].hasteEnabled ensures Hasted(defs[a].period, 0.0, 0.0) >= 1 {
      assert defs[a].period as real / (1.0 + 0.0) / (1.0 + 0.0) == defs[a].period as real;
    }
  }

  /** The simulator between two events. */
  datatype Sim = Sim(w: World, haste: real, extra: real, calls: nat)

  /** How often an event calls scripts. */
  function CallsOf(w: World, e: Event): nat {
    match e
    case Apply(_, _, _, _) => 1
    case Remove(k, g) => if k in w.auras && w.auras[k].guid == g && w.auras[k].fade <= w.now then 1 else 0
    case Tick(k, g, _) => if k in w.auras && w.auras[k].guid == g then 2 else 0
  }

  /** Before the first event. */
  lemma NothingYet(defs: map<nat, Def>)
    ensures Inv(World(0, map[], map[], 0, map[])) && Drawn(defs, map[])
    ensures Ordered<Event>(0, map[], map[], [], [])
  {}

  class Simulator {
    /** The aura database. */
    const defs: map<nat, Def>
    var now: nat
    var queue: Queue<Event>
    var auras: map<Key, Aura>
    var counter: nat
    var haste: real
    var extra: real
    /** What the scripts do: at a time, in their so manieth call at that time. */
    const script: (nat, nat) -> Hook
    /** How many calls at one time may add events to that same time; there is no other limit to what scripts do. */
    ghost const noisy: nat -> nat
    /** How many calls into scripts there have been at this time. */
    var calls: nat
    ghost var life: map<nat, Life>
    ghost var tickets: Tickets
    /** When each event was due, in the order in which they were added. */
    ghost var posted: seq<nat>
    /** The events that have run: when, and their numbers. */
    ghost var log: seq<(nat, nat)>

    ghost predicate Kept()
      reads `now, `queue, `tickets, `posted, `log
    {
      Ordered(now, queue, tickets, posted, log)
    }

    ghost function Snap(): World
      reads this
    {
      World(now, queue, auras, counter, life)
    }

    ghost function Whole(): Sim
      reads this
    {
      Sim(Snap(), haste, extra, calls)
    }

    /** The same, once the front event has been taken off. */
    ghost function WholeRest(): Sim
      requires now in queue && queue[now] != []
      reads this
    {
      Sim(Rest(), haste, extra, calls)
    }

    /** Events apply auras that exist. */
    predicate Knows(e: Event) {
      e.key.1 in defs
    }

    /** Haste never makes a period vanish, and only auras that tick are subject to it. */
    predicate HasteFits(h: real, x: real) {
      && h > -1.0 && x > -1.0
      && forall a :: a in defs && defs[a].hasteEnabled ==> Hasted(defs[a].period, h, x) >= 1
    }

    predicate SaneHook(h: Hook) {
      HasteFits(h.haste, h.extra) && forall i :: 0 <= i < |h.adds| ==> h.adds[i].Apply? && Knows(h.adds[i])
    }

    /** How many calls at this time may still add to it. */
    ghost function Noise(): nat
      reads `calls, `now
    {
      if calls < noisy(now) then noisy(now) - calls else 0
    }

    /** Auras that tick have a period, and only they are subject to haste. */
    predicate DefsSane() {
      forall a :: a in defs ==>
        (defs[a].periodic ==> defs[a].period >= 1) && (defs[a].hasteEnabled ==> defs[a].periodic)
    }

    ghost predicate Sane()
      reads `queue, `haste, `extra
    {
      && DefsSane() && HasteFits(haste, extra)
      && (forall t: nat, n: nat :: SaneHook(script(t, n)) && (n >= noisy(t) ==> script(t, n).adds == []))
      && (forall t, i, e :: At(queue, t, i, e) ==> Knows(e))
    }

    /** `AddEvent`. */
    method AddEvent(e: Event, delay: nat)
      requires Sane() && Knows(e) && Kept()
      modifies `queue, `tickets, `posted
      ensures Sane() && Kept() && queue == Append(old(queue), now + delay, e)
    {
      var t := now + delay;
      OrderedAppend(now, queue, tickets, posted, log, t, e);
      tickets := Ticketed(tickets, t, |posted|);
      posted := posted + [t];
      AppendAt(queue, t, e);
      if t in queue {
        queue := queue[t := queue[t] + [e]];
      } else {
        queue := queue[t := [e]];
        assert [] + [e] == [e];
      }
    }

    /** The state once the front event has been taken off. */
    ghost function Rest(): World
      requires now in queue && queue[now] != []
      reads this
    {
      World(now, DropFront(queue, now), auras, counter, life)
    }

    /** The event at the front of the current instant. */
    predicate InFront(e: Event)
      reads this
    {
      now in queue && queue[now] != [] && queue[now][0] == e
    }

    lemma FrontSane(e: Event)
      requires Sane() && InFront(e)
      ensures Knows(e)
      ensures var d := defs[e.key.1];
        (d.periodic ==> d.period >= 1) && (d.hasteEnabled ==> d.periodic) && haste > -1.0 && extra > -1.0
    {
      assert At(queue, now, 0, e);
    }

    /** What a script asks for is added. */
    method AddAll(adds: seq<Event>)
      requires Inv(Snap()) && Sane() && Kept() && forall i :: 0 <= i < |adds| ==> adds[i].Apply? && Knows(adds[i])
      modifies `queue, `tickets, `posted
      ensures Inv(Snap()) && Sane() && Kept() && queue == Added(old(queue), now, adds)
    {
      hide Inv;
      hide Sane;
      hide Kept;
      assert queue == Added(queue, now, adds[..0]);
      hide Added;
      var i := 0;
      while i < |adds|
        invariant 0 <= i <= |adds| && Inv(Snap()) && Sane() && Kept()
        invariant queue == Added(old(queue), now, adds[..i])
      {
        ghost var w := Snap();
        AppliesLater(w, now, adds[i]);
        AddedMore(old(queue), now, adds[..i], adds[i]);
        AddEvent(adds[i], 0);
        assert adds[..i] + [adds[i]] == adds[..i + 1];
        assert Snap() == w.(q := Append(w.q, now, adds[i]));
        i := i + 1;
      }
      assert adds[..|adds|] == adds;
    }

    /** `CallLuaFunction`: the next call into a script, which leaves the front event in front. */
    method CallHook(ghost e: Event)
      requires Inv(Snap()) && Sane() && Kept() && InFront(e)
      modifies `queue, `tickets, `posted, `calls, `haste, `extra
      ensures Inv(Snap()) && Sane() && Kept() && InFront(e)
      ensures calls == old(calls) + 1 && queue == Added(old(queue), now, script(now, old(calls)).adds)
      ensures haste == script(now, old(calls)).haste && extra == script(now, old(calls)).extra
      ensures Noise() < old(Noise()) || (Noise() == old(Noise()) && queue == old(queue))
    {
      hide Inv;
      hide Kept;
      hide At;
      var h := script(now, calls);
      assert SaneHook(h);
      haste, extra := h.haste, h.extra;
      calls := calls + 1;
      AddAll(h.adds);
    }

    /** The world after `k` more calls into scripts. */
    ghost function After(w: World, calls: nat, k: nat): World {
      if k == 0 then w
      else
        var v := After(w, calls, k - 1);
        v.(q := Added(v.q, w.now, script(w.now, calls + k - 1).adds))
    }

    lemma AfterSame(w: World, before: nat, k: nat)
      ensures After(w, before, k) == w.(q := After(w, before, k).q)
    {}

    /** What an event comes to, if it applies an aura. */
    ghost function MeasureWith(e: Event, known: bool, h: real, x: real): Measure
      requires DefsSane() && HasteFits(h, x) && Knows(e)
    {
      if e.Apply? then MeasureOf(defs[e.key.1], e.duration, known, h, x) else Plain(0)
    }

    ghost function MeasureNow(e: Event, known: bool): Measure
      requires DefsSane() && HasteFits(haste, extra) && Knows(e)
      reads `haste, `extra
    {
      MeasureWith(e, known, haste, extra)
    }

    /** What event `e` makes of the simulator, the scripts that it calls included. */
    ghost predicate Became(a: Sim, e: Event, b: Sim) {
      && DefsSane() && HasteFits(b.haste, b.extra) && Knows(e) && b.calls == a.calls + CallsOf(a.w, e)
      && (if b.calls == a.calls then b.haste == a.haste && b.extra == a.extra
          else b.haste == script(a.w.now, b.calls - 1).haste && b.extra == script(a.w.now, b.calls - 1).extra)
      && var h, m := After(a.w, a.calls, b.calls - a.calls), MeasureWith(e, e.key in a.w.auras, b.haste, b.extra);
         Inv(h) && HasFront(h) && Front(h) == e && Suits(h, m) && b.w == Turned(h, m)
    }

    lemma BecameKeeps(a: Sim, e: Event, b: Sim)
      requires Became(a, e, b) && Drawn(defs, a.w.life)
      ensures Inv(b.w) && Drawn(defs, b.w.life)
    {
      hide Inv;
      hide Turned;
      var h, m := After(a.w, a.calls, b.calls - a.calls), MeasureWith(e, e.key in a.w.auras, b.haste, b.extra);
      AfterSame(a.w, a.calls, b.calls - a.calls);
      TurnedKeeps(h, m);
      DrawnTurned(defs, h, m);
    }

    /** In plain terms. */
    lemma BecameHandled(a: Sim, e: Event, b: Sim)
      requires Became(a, e, b)
      ensures Handled(defs[e.key.1], a.w, e, b.w, b.haste, b.extra)
    {
      hide Inv;
      hide Turned;
      hide Shortened;
      hide Hasted;
      hide MeasureOf;
      hide Pending;
      var d := defs[e.key.1];
      var h, m := After(a.w, a.calls, b.calls - a.calls), MeasureWith(e, e.key in a.w.auras, b.haste, b.extra);
      AfterSame(a.w, a.calls, b.calls - a.calls);
      if !e.Apply? { TurnedHandled(d, h, e, m, b.haste, b.extra); }
      else if e.key in a.w.auras { RenewedHandled(d, h, e, b.haste, b.extra); }
      else { NewHandled(d, h, e, b.haste, b.extra); }
      HandledSame(d, h, a.w, e, b.w, b.haste, b.extra);
    }

    /** One event has run. */
    ghost predicate Turn(a: Sim, b: Sim) { HasFront(a.w) && Became(a, Front(a.w), b) }

    ghost predicate AllTurns(sims: seq<Sim>) { forall i :: 0 < i < |sims| ==> Turn(sims[i - 1], sims[i]) }

    /** `ProcessEvent` has run everything due, event by event; or it has moved the clock. */
    ghost predicate Processed(a: Sim, available: nat, ran: bool, b: Sim) {
      if ran then
        && b.w.now == a.w.now && b.w.now !in b.w.q
        && exists sims :: |sims| > 1 && sims[0] == a && sims[|sims| - 1] == b && AllTurns(sims)
      else
        && a.w.now !in a.w.q && b == Sim(a.w.(now := b.w.now), a.haste, a.extra, b.calls)
        && Reached(a.w.now, available, a.w.q, b.w.now) && b.calls == if b.w.now > a.w.now then 0 else a.calls
    }

    /** One round of the main loop, in which the idle player may be asked what to do. */
    ghost predicate Round(a: Sim, available: nat, idle: Option<Hook>, b: Sim) {
      exists ran, m :: Processed(a, available, ran, m) && b == match idle
        case None => m
        case Some(h) => Sim(m.w.(q := Added(m.w.q, m.w.now, h.adds)), h.haste, h.extra, m.calls)
    }

    /** `CAuraEvent::GetCastTime`: the period of an aura, with the haste of the moment. */
    method GetCastTime(a: nat) returns (c: nat)
      requires Sane() && a in defs
      ensures c == if defs[a].hasteEnabled then Hasted(defs[a].period, haste, extra) else defs[a].period
      ensures defs[a].periodic ==> c >= 1
    {
      HastedNat(defs[a].period, haste, extra);
      c := if defs[a].hasteEnabled then Hasted(defs[a].period, haste, extra) else defs[a].period;
    }

    lemma MeasureSuits(e: Event)
      requires Sane() && InFront(e) && Knows(e)
      ensures e.key !in auras && e.Apply? ==> Fits(MeasureNow(e, false), e.duration)
    {
      if e.Apply? { MeasureFits(defs[e.key.1], e.duration, haste, extra); }
    }

    /** `AuraApplication` when the aura is there already. */
    method Refresh(e: Event)
      requires Inv(Snap()) && Sane() && Kept() && InFront(e) && Knows(e) && e.Apply? && e.key in auras
      modifies `auras, `life
      ensures Sane() && Kept() && Snap() == Applied(old(Snap()), e, MeasureNow(e, true))
    {
      hide Inv;
      hide Kept;
      FrontSane(e);
      var a := auras[e.key];
      var stacks := a.stacks + e.stacks;
      var fade := a.fade;
      if e.setFade {
        var d := e.duration;
        if defs[e.key.1].hasteEnabled {
          HastedNat(d, haste, extra);
          d := Hasted(d, haste, extra);
        }
        fade := if d != 0 then d + now + 1 else 0;
      }
      RefreshKeeps(Snap(), e.key, stacks, fade, e.setFade);
      ghost var h := Refreshed(Snap(), e.key, stacks, fade, e.setFade);
      assert h == Applied(Snap(), e, MeasureNow(e, true));
      auras := auras[e.key := a.(stacks := stacks, fade := fade)];
      life := h.life;
      assert Snap() == h;
    }

    /** How long a new aura will last and how often it will tick: with haste, as many ticks in less time. */
    method NewMeasure(e: Event) returns (full: nat, c: nat)
      requires Sane() && InFront(e) && Knows(e) && e.Apply?
      ensures var m := MeasureNow(e, false); full == m.full && (defs[e.key.1].periodic ==> c == m.period >= 1)
    {
      FrontSane(e);
      var def := defs[e.key.1];
      c := GetCastTime(e.key.1);
      full := e.duration;
      if def.hasteEnabled && full != 0 {
        full := Product(c, full / def.period);
      }
    }

    /** `AuraApplication` when it is new: the aura, its removal and its first tick. */
    method ApplyNew(e: Event)
      requires Inv(Snap()) && Sane() && Kept() && InFront(e) && Knows(e) && e.Apply? && e.key !in auras
      modifies `auras, `life, `counter, `queue, `tickets, `posted
      ensures Sane() && Kept() && InFront(e) && queue[now] == old(queue)[now]
      ensures Fits(MeasureNow(e, false), e.duration)
      ensures Snap() == Born(old(Snap()), e.key, e.stacks, e.duration, MeasureNow(e, false))
    {
      hide Inv;
      hide Kept;
      hide At;
      hide Append;
      hide BornQueue;
      MeasureSuits(e);
      ghost var w, m := Snap(), MeasureNow(e, false);
      var full, c := NewMeasure(e);
      assert m.period == if defs[e.key.1].periodic then c else 0;
      hide MeasureNow;
      hide Sane;
      counter := counter + 1;
      auras := auras[e.key := Aura(counter, if full != 0 then full + now + 1 else 0, e.stacks)];
      Enqueue(e, full, c);
      ghost var h := Born(w, e.key, e.stacks, e.duration, m);
      assert queue == h.q && auras == h.auras && counter == h.counter && now == h.now;
      hide Born;
      life := h.life;
      assert Snap() == h;
    }

    /** The events of a new aura: its removal, and then its first tick. */
    method Enqueue(e: Event, full: nat, c: nat)
      requires Sane() && Kept() && InFront(e) && Knows(e) && (defs[e.key.1].periodic ==> c >= 1)
      modifies `queue, `tickets, `posted
      ensures queue == BornQueue(old(queue), now, e.key, counter, full, if defs[e.key.1].periodic then c else 0)
      ensures Sane() && Kept() && InFront(e) && queue[now] == old(queue)[now]
    {
      hide Sane;
      hide Kept;
      BornFront(queue, now, e.key, counter, full, if defs[e.key.1].periodic then c else 0);
      hide Append;
      if full != 0 {
        AddEvent(Remove(e.key, counter), full + 1);
      }
      if defs[e.key.1].periodic {
        AddEvent(Tick(e.key, counter, c), c);
      }
    }

    /** `AuraApplication`, after its script has been called. */
    method ApplyOrRefresh(e: Event)
      requires Inv(Snap()) && Sane() && Kept() && InFront(e) && Knows(e) && e.Apply?
      modifies `auras, `life, `counter, `queue, `tickets, `posted
      ensures Sane() && Kept() && InFront(e) && Knows(e) && queue[now] == old(queue)[now]
      ensures var m := MeasureNow(e, e.key in old(auras));
        Suits(old(Snap()), m) && Rest() == Turned(old(Snap()), m)
    {
      hide Inv;
      hide Kept;
      hide Fits;
      ghost var w := Snap();
      if e.key in auras {
        Refresh(e);
        assert Snap() == Applied(w, e, MeasureNow(e, true));
      } else {
        ApplyNew(e);
        assert Snap() == Applied(w, e, MeasureNow(e, false));
      }
    }

    /** `AuraApplication`. */
    method AuraApplication(e: Event)
      requires Inv(Snap()) && Sane() && Kept() && InFront(e) && e.Apply?
      modifies `auras, `life, `counter, `queue, `tickets, `posted, `calls, `haste, `extra
      ensures Sane() && Kept() && InFront(e) && Knows(e) && Became(old(Whole()), e, WholeRest())
      ensures Handled(defs[e.key.1], old(Snap()), e, Rest(), haste, extra)
      ensures Noise() < old(Noise()) || (Noise() == old(Noise()) && queue[now] == old(queue)[now])
    {
      hide Inv;
      hide Kept;
      hide Turned;
      FrontSane(e);
      ghost var w, c := Snap(), calls;
      CallHook(e);
      assert After(w, c, 0) == w && Snap() == After(w, c, 1);
      ApplyOrRefresh(e);
      BecameHandled(old(Whole()), e, WholeRest());
    }

    /** `AuraRemoval`. */
    method AuraRemoval(e: Event)
      requires Inv(Snap()) && Sane() && Kept() && InFront(e) && e.Remove?
      modifies `auras, `life, `queue, `tickets, `posted, `calls, `haste, `extra
      ensures Sane() && Kept() && InFront(e) && Knows(e) && Became(old(Whole()), e, WholeRest())
      ensures Noise() < old(Noise()) || (Noise() == old(Noise()) && queue[now] == old(queue)[now])
    {
      hide Inv;
      hide Kept;
      ghost var w, c := Snap(), calls;
      FrontKnown(w);
      FrontSane(e);
      assert After(w, c, 0) == w;
      if e.key !in auras || auras[e.key].guid != e.guid {
        assert Rest() == Turned(w, MeasureNow(e, e.key in auras));
      } else if auras[e.key].fade > now {
        AddEvent(e, auras[e.key].fade - now);
        life := Delayed(w).life;
        assert Rest() == Turned(w, MeasureNow(e, true));
      } else {
        CallHook(e);
        assert Snap() == After(w, c, 1);
        ghost var h := Snap();
        auras := auras - {e.key};
        life := Removed(h).life;
        assert Rest() == Turned(h, MeasureNow(e, true));
      }
    }

    /** `AuraPeriodic`, for what it does to the queue. */
    method AuraPeriodic(e: Event)
      requires Inv(Snap()) && Sane() && Kept() && InFront(e) && e.Tick?
      modifies `life, `queue, `tickets, `posted, `calls, `haste, `extra
      ensures Sane() && Kept() && InFront(e) && Knows(e) && Became(old(Whole()), e, WholeRest())
      ensures Noise() < old(Noise()) || (Noise() == old(Noise()) && queue[now] == old(queue)[now])
    {
      hide Inv;
      hide Kept;
      ghost var w, c := Snap(), calls;
      FrontKnown(w);
      FrontSane(e);
      assert After(w, c, 0) == w;
      if e.key !in auras || auras[e.key].guid != e.guid {
        assert Rest() == Turned(w, MeasureNow(e, e.key in auras));
      } else {
        CallTwice(e);
        TickAgain(e);
      }
    }

    /** The scripts before and after a tick. */
    method CallTwice(ghost e: Event)
      requires Inv(Snap()) && Sane() && Kept() && InFront(e)
      modifies `queue, `tickets, `posted, `calls, `haste, `extra
      ensures Inv(Snap()) && Sane() && Kept() && InFront(e)
      ensures calls == old(calls) + 2 && Snap() == After(old(Snap()), old(calls), 2)
      ensures haste == script(now, calls - 1).haste && extra == script(now, calls - 1).extra
      ensures Noise() < old(Noise()) || (Noise() == old(Noise()) && queue == old(queue))
    {
      hide Inv;
      hide Kept;
      hide Sane;
      ghost var w, c := Snap(), calls;
      assert After(w, c, 0) == w;
      CallHook(e);
      assert Snap() == After(w, c, 1);
      CallHook(e);
      assert Snap() == After(w, c, 2);
    }

    /** The event comes again a period later, unless the aura has faded by then. */
    method TickAgain(e: Event)
      requires Inv(Snap()) && Sane() && Kept() && InFront(e) && e.Tick? && e.key in auras && auras[e.key].guid == e.guid
      modifies `life, `queue, `tickets, `posted
      ensures Sane() && Kept() && InFront(e) && queue[now] == old(queue)[now]
      ensures HasFront(old(Snap())) && Front(old(Snap())) == e && Rest() == Turned(old(Snap()), Plain(0))
    {
      hide Inv;
      hide Kept;
      FrontKnown(Snap());
      ghost var w := Snap();
      FrontSane(e);
      hide Sane;
      if now + e.period <= auras[e.key].fade {
        AddEvent(e, e.period);
      }
      ghost var h := Ticked(w);
      assert DropFront(queue, now) == h.q;
      life := h.life;
      assert Rest() == h;
    }

    /** `CAuraEvent::operator()`. */
    method Dispatch(e: Event)
      requires Inv(Snap()) && Sane() && Kept() && InFront(e)
      modifies `auras, `life, `counter, `queue, `tickets, `posted, `calls, `haste, `extra
      ensures Sane() && Kept() && InFront(e) && Knows(e) && Became(old(Whole()), e, WholeRest())
      ensures Handled(defs[e.key.1], old(Snap()), e, Rest(), haste, extra)
      ensures Noise() < old(Noise()) || (Noise() == old(Noise()) && queue[now] == old(queue)[now])
    {
      hide Inv;
      hide Turned;
      hide Became;
      hide Handled;
      match e {
        case Apply(_, _, _, _) => AuraApplication(e);
        case Remove(_, _) => AuraRemoval(e);
        case Tick(_, _, _) => AuraPeriodic(e);
      }
      BecameHandled(old(Whole()), e, WholeRest());
    }

    /** One round of `ProcessEvent`: the front event of the current instant runs and is taken off. */
    method RunFront()
      requires Inv(Snap()) && Sane() && Kept() && Drawn(defs, life) && now in queue && queue[now] != []
      modifies `auras, `life, `counter, `queue, `tickets, `posted, `log, `calls, `haste, `extra
      ensures Inv(Snap()) && Sane() && Kept() && Drawn(defs, life)
      ensures Turn(old(Whole()), Whole())
      ensures var e := old(queue[now][0]); Knows(e) && Handled(defs[e.key.1], old(Snap()), e, Snap(), haste, extra)
      ensures Noise() < old(Noise())
              || (Noise() == old(Noise()) && if |old(queue)[now]| == 1 then now !in queue
                                           else now in queue && queue[now] == old(queue)[now][1..])
    {
      hide Inv;
      hide Ordered;
      hide HasteFits;
      hide SaneHook;
      hide Became;
      hide Handled;
      hide Drawn;
      ghost var a := Whole();
      var e := queue[now][0];
      Dispatch(e);
      ghost var b := WholeRest();
      BecameKeeps(a, e, b);
      DropKnows();
      Pop();
      assert Whole() == b;
    }

    /** The front event is taken off. */
    method Pop()
      requires now in queue && queue[now] != [] && Kept()
      modifies `queue, `tickets, `log
      ensures Kept() && queue == DropFront(old(queue), now)
    {
      hide Ordered;
      OrderedRun(now, queue, tickets, posted, log);
      log := log + [(now, tickets[now][0])];
      tickets := Popped(tickets, now);
      if |queue[now]| == 1 {
        queue := queue - {now};
      } else {
        queue := queue[now := queue[now][1..]];
      }
    }

    lemma DropKnows()
      requires Sane() && now in queue && queue[now] != []
      ensures forall t, i, e :: At(DropFront(queue, now), t, i, e) ==> Knows(e)
    {
      DropAt(queue, now);
      hide DropFront;
      hide At;
    }

    /**
      `ProcessEvent`: runs every event that is due, in order; or, if none is, moves the clock to the next one, or as
      far as the player is busy.
     */
    method ProcessEvent(available: nat) returns (ran: bool)
      requires Inv(Snap()) && Sane() && Kept() && Drawn(defs, life)
      modifies this
      ensures Inv(Snap()) && Sane() && Kept() && Drawn(defs, life) && now >= old(now)
      ensures Processed(old(Whole()), available, ran, Whole())
    {
      hide Inv;
      hide Sane;
      hide Kept;
      hide Drawn;
      hide Turn;
      hide Handled;
      ghost var sims := [Whole()];
      while queue != map[]
        invariant Inv(Snap()) && Sane() && Kept() && Drawn(defs, life) && now == old(now)
        invariant |sims| > 0 && sims[0] == old(Whole()) && sims[|sims| - 1] == Whole() && AllTurns(sims)
        invariant now !in queue ==> |sims| == 1
        decreases Noise(), if now in queue then |queue[now]| else 0
      {
        var t := First(queue);
        Due(Snap());
        if t > now {
          break;
        }
        NotEmpty(Snap());
        ghost var noise, here := Noise(), |queue[now]|;
        RunFront();
        assert Noise() < noise || (Noise() == noise && (now in queue ==> |queue[now]| < here));
        sims := sims + [Whole()];
        var more := MoreDue();
        if !more {
          return true;
        }
      }
      MoveClock(available);
      return false;
    }

    /** Whether the next event is due now. */
    method MoreDue() returns (more: bool)
      requires Inv(Snap())
      ensures more <==> now in queue
    {
      Due(Snap());
      if queue == map[] {
        return false;
      }
      var t := First(queue);
      more := t <= now;
    }

    /** To the next event, or as far as the player is busy. */
    method MoveClock(available: nat)
      requires Inv(Snap()) && Sane() && Kept() && now !in queue
      modifies `now, `calls
      ensures Inv(Snap()) && Sane() && Kept() && Reached(old(now), available, queue, now) && now >= old(now)
      ensures calls == if now > old(now) then 0 else old(calls)
    {
      hide Inv;
      hide Ordered;
      hide Sane;
      var next := now + available;
      if queue != map[] {
        var t := First(queue);
        next := if available != 0 && next < t then next else t;
      }
      Due(Snap());
      ClockMoves(Snap(), next);
      Later(next);
      calls := if next > now then 0 else calls;
      now := next;
    }

    lemma Later(next: nat)
      requires Kept() && now <= next
      ensures Ordered(next, queue, tickets, posted, log)
    {
      OrderedLater(now, next, queue, tickets, posted, log);
    }

    /** Between events: what the routine of the idle player asks for. */
    method Idle(h: Hook)
      requires Inv(Snap()) && Sane() && Kept() && SaneHook(h)
      modifies `queue, `tickets, `posted, `haste, `extra
      ensures Inv(Snap()) && Sane() && Kept() && queue == Added(old(queue), now, h.adds)
      ensures haste == h.haste && extra == h.extra
    {
      hide Inv;
      hide Kept;
      haste, extra := h.haste, h.extra;
      AddAll(h.adds);
    }

    /** Every instance that has gone, and was never refreshed, ticked as often as its duration has periods. */
    ghost predicate TickedOut()
      reads this
    {
      forall g :: g in life && life[g].removed && !life[g].refreshed && life[g].key.1 in defs
                  && defs[life[g].key.1].periodic ==>
        var l, period := life[g], defs[life[g].key.1].period;
        && period != 0 && |l.ticks| == l.duration / period && l.end == l.start + l.full + 1
        && forall i :: 0 <= i < |l.ticks| ==> l.ticks[i] == l.start + (i + 1) * l.period
    }

    /** The main loop, for `rounds` rounds; in each, what the idle player does if it is its turn. */
    method Run(rounds: nat, available: nat -> nat, idle: nat -> Option<Hook>) returns (ghost sims: seq<Sim>)
      requires Inv(Snap()) && Sane() && Kept() && Drawn(defs, life)
      requires forall i: nat :: idle(i).Some? ==> SaneHook(idle(i).value)
      modifies this
      ensures Inv(Snap()) && Sane() && Kept() && Drawn(defs, life) && TickedOut()
      ensures |sims| == rounds + 1 && sims[0] == old(Whole()) && sims[rounds] == Whole()
      ensures forall i :: 0 <= i < rounds ==> Round(sims[i], available(i), idle(i), sims[i + 1])
    {
      hide Inv;
      hide Sane;
      hide Kept;
      hide Drawn;
      hide Round;
      hide TickedOut;
      sims := [Whole()];
      var i := 0;
      while i < rounds
        invariant Inv(Snap()) && Sane() && Kept() && Drawn(defs, life)
        invariant 0 <= i <= rounds && |sims| == i + 1 && sims[0] == old(Whole()) && sims[i] == Whole()
        invariant forall j :: 0 <= j < i ==> Round(sims[j], available(j), idle(j), sims[j + 1])
      {
        OneRound(available(i), idle(i));
        sims := sims + [Whole()];
        i := i + 1;
      }
      AllTicked();
    }

    method OneRound(available: nat, idle: Option<Hook>)
      requires Inv(Snap()) && Sane() && Kept() && Drawn(defs, life) && (idle.Some? ==> SaneHook(idle.value))
      modifies this
      ensures Inv(Snap()) && Sane() && Kept() && Drawn(defs, life) && Round(old(Whole()), available, idle, Whole())
    {
      hide Inv;
      hide Sane;
      hide Kept;
      hide Drawn;
      hide Processed;
      var ran := ProcessEvent(available);
      ghost var m := Whole();
      if idle.Some? {
        Idle(idle.value);
      }
      assert Processed(old(Whole()), available, ran, m);
    }

    lemma AllTicked()
      requires Inv(Snap()) && Drawn(defs, life)
      ensures TickedOut()
    {
      hide Inv;
      forall g | g in life && life[g].removed && !life[g].refreshed && life[g].key.1 in defs
                 && defs[life[g].key.1].periodic
        ensures var l, period := life[g], defs[life[g].key.1].period;
          && period != 0 && |l.ticks| == l.duration / period && l.end == l.start + l.full + 1
          && forall i :: 0 <= i < |l.ticks| ==> l.ticks[i] == l.start + (i + 1) * l.period
      {
        assert DrawnOne(defs, life[g]);
        HasteInvariantTicks(Snap(), g);
      }
    }

    /** The first events. */
    method Begin(first: seq<Event>)
      requires Inv(Snap()) && Sane() && Kept() && forall i :: 0 <= i < |first| ==> first[i].Apply? && Knows(first[i])
      modifies `queue, `tickets, `posted
      ensures Inv(Snap()) && Sane() && Kept() && queue == Added(old(queue), now, first)
    {
      AddAll(first);
    }

    constructor (defs: map<nat, Def>, script: (nat, nat) -> Hook, ghost noisy: nat -> nat, first: seq<Event>)
      requires forall a :: a in defs ==>
        (defs[a].periodic ==> defs[a].period >= 1) && (defs[a].hasteEnabled ==> defs[a].periodic)
      requires forall t: nat, n: nat :: Tame(defs, script(t, n)) && (n >= noisy(t) ==> script(t, n).adds == [])
      requires forall i :: 0 <= i < |first| ==> first[i].Apply? && first[i].key.1 in defs
      ensures Inv(Snap()) && Sane() && Kept() && Drawn(defs, life)
      ensures this.defs == defs && this.script == script
      ensures Whole() == Sim(World(0, Added(map[], 0, first), map[], 0, map[]), 0.0, 0.0, 0)
    {
      this.defs, this.script, this.noisy := defs, script, noisy;
      now, queue, auras, counter, calls := 0, map[], map[], 0, 0;
      haste, extra := 0.0, 0.0;
      life := map[];
      tickets, posted, log := map[], [], [];
      new;
      hide Inv;
      hide Ordered;
      hide Drawn;
      hide Hasted;
      NothingYet(defs);
      NoHaste(defs);
      Begin(first);
    }
  }
}
