/**
  Pending events and the auras they apply, tick and remove, as a state that is stepped through; what a
  scripted hook adds to the queue is arbitrary.
 */
module Auras {
  import opened Queues

  /** A creature and an aura of the database. */
  type Key = (nat, nat)

  /** What the database says of an aura. */
  datatype Def = Def(periodic: bool, hasteEnabled: bool, period: nat)

  datatype Event =
    | Apply(key: Key, stacks: nat, duration: nat, setFade: bool)
    | Remove(key: Key, guid: nat)
    | Tick(key: Key, guid: nat, period: nat)

  datatype Aura = Aura(guid: nat, fade: nat, stacks: nat)

  /** The history of one application of an aura. */
  datatype Life = Life(
    key: Key,
    start: nat,
    duration: nat,
    base: nat,
    hasteEnabled: bool,
    full: nat,
    period: nat,
    ticks: seq<nat>,
    due: nat,
    refreshed: bool,
    shortened: bool,
    removed: bool,
    end: nat,
    endFade: nat)

  datatype World = World(now: nat, q: Queue<Event>, auras: map<Key, Aura>, counter: nat, life: map<nat, Life>)

  /** Events of the same kind for the same instance are one and the same. */
  ghost predicate Unique(q: Queue<Event>) {
    forall t, i, e, u, j, f ::
      At(q, t, i, e) && At(q, u, j, f) && !e.Apply? && !f.Apply? && e.guid == f.guid && e.Remove? == f.Remove?
      ==> t == u && i == j
  }

  predicate Live(w: World, g: nat) { g in w.life && w.life[g].key in w.auras && w.auras[w.life[g].key].guid == g }

  /** Events of the queue are of instances there are. */
  ghost predicate QueueKnown(q: Queue<Event>, life: map<nat, Life>) {
    && (forall t, i, e :: At(q, t, i, e) && !e.Apply? ==> e.guid in life && e.key == life[e.guid].key)
    && (forall t, i, e :: At(q, t, i, e) && e.Tick? ==> e.period == life[e.guid].period >= 1)
  }

  ghost predicate Known(w: World) {
    && (forall g :: g in w.life <==> 1 <= g <= w.counter)
    && (forall k :: k in w.auras ==> w.auras[k].guid in w.life && w.life[w.auras[k].guid].key == k)
    && QueueKnown(w.q, w.life)
    && (forall g :: g in w.life ==> (w.life[g].removed <==> !Live(w, g)))
  }

  function RemoveOf(w: World, g: nat): Event
    requires g in w.life
  {
    Remove(w.life[g].key, g)
  }

  function TickOf(w: World, g: nat): Event
    requires g in w.life
  {
    Tick(w.life[g].key, g, w.life[g].period)
  }

  /** When the next tick of an aura would be. */
  function NextTick(l: Life): nat { l.start + (|l.ticks| + 1) * l.period }

  /** The ticks so far, each a period after the one before, and none after the full time. */
  ghost predicate Regular(l: Life) {
    && (forall i :: 0 <= i < |l.ticks| ==> l.ticks[i] == l.start + (i + 1) * l.period)
    && |l.ticks| * l.period <= l.full
  }

  /** Whether there is another tick to come. */
  predicate Continues(l: Life) { l.ticks == [] || NextTick(l) <= l.start + l.full + 1 }

  /** An aura that fades: where its removal and its next tick are waiting. */
  ghost predicate Fading(w: World, g: nat)
    requires Live(w, g)
  {
    var l, a := w.life[g], w.auras[w.life[g].key];
    && Pending(w.q, l.due, RemoveOf(w, g))
    && (!l.shortened ==> a.fade != 0 && l.due <= a.fade)
    && (!l.refreshed ==> !l.shortened && a.fade == l.due == l.start + l.full + 1)
    && (!l.refreshed && l.period != 0 ==>
          && Regular(l)
          && (if Continues(l) then Pending(w.q, NextTick(l), TickOf(w, g)) else NoTick(w.q, g))
          && (Continues(l) && NextTick(l) == l.due ==> Before(w.q, l.due, RemoveOf(w, g), TickOf(w, g))))
  }

  ghost predicate NoTick(q: Queue<Event>, g: nat) { forall t, i, e :: At(q, t, i, e) ==> !(e.Tick? && e.guid == g) }

  ghost predicate NoRemove(q: Queue<Event>, g: nat) { forall t, i, e :: At(q, t, i, e) ==> !(e.Remove? && e.guid == g) }

  /** An aura applied for ever is never removed: there is no event that would do it. */
  ghost predicate Waits(w: World, g: nat)
    requires Live(w, g)
  {
    if w.life[g].full == 0 then NoRemove(w.q, g) else Fading(w, g)
  }

  ghost predicate Lives(w: World) { forall g :: g in w.life && Live(w, g) ==> Waits(w, g) }

  /** How an aura ended: not before its time, on time unless a refresh shortened it, after all of its ticks. */
  ghost predicate Ended(l: Life) {
    && l.full != 0 && l.endFade <= l.end
    && (!l.shortened ==> l.end == l.endFade)
    && (!l.refreshed ==> l.end == l.start + l.full + 1)
    && (!l.refreshed && l.period != 0 ==> Regular(l) && |l.ticks| == l.full / l.period)
  }

  ghost predicate Ends(w: World) { forall g :: g in w.life && w.life[g].removed ==> Ended(w.life[g]) }

  /** How long an aura lasts from its application, and how it ticks; `base` is the period of the database. */
  datatype Measure = Measure(full: nat, base: nat, period: nat, hasteEnabled: bool)

  /** With haste, a new aura lasts as many of its periods as it would have without. */
  predicate Fits(m: Measure, duration: nat) {
    && (m.hasteEnabled ==> m.period != 0)
    && (m.period != 0 ==> m.base != 0 && (m.hasteEnabled || m.period == m.base))
    && m.full == if m.hasteEnabled && duration != 0 then m.period * (duration / m.base) else duration
  }

  predicate Measured(l: Life) { Fits(Measure(l.full, l.base, l.period, l.hasteEnabled), l.duration) }

  ghost predicate Inv(w: World) {
    && Timely(w.now, w.q) && Unique(w.q) && Known(w) && Lives(w) && Ends(w)
    && forall g :: g in w.life ==> Measured(w.life[g])
  }

  // ------------------------------------------------------------------------------- what it all means

  lemma MulLess(c: nat, a: nat, b: nat)
    requires a < b
    ensures c * a + c <= c * b
  {
    if a + 1 < b { MulLess(c, a, b - 1); }
    assert c * b == c * (b - 1) + c;
  }

  /** The quotient is the number that fits. */
  lemma DivIs(x: nat, c: nat, n: nat)
    requires c > 0 && c * n <= x < c * n + c
    ensures x / c == n
  {
    var q := x / c;
    assert x == c * q + x % c;
    if q < n { MulLess(c, q, n); } else if n < q { MulLess(c, n, q); }
  }

  lemma DivExact(c: nat, n: nat)
    requires c != 0
    ensures c * n / c == n
  {
    DivIs(c * n, c, n);
  }

  /** Whatever the haste, an aura never refreshed ticks `duration / period` times, at regular intervals, and then
      goes. */
  lemma HasteInvariantTicks(w: World, g: nat)
    requires Inv(w) && g in w.life && w.life[g].removed && !w.life[g].refreshed && w.life[g].period != 0
    ensures var l := w.life[g];
      && l.base != 0 && |l.ticks| == l.duration / l.base
      && (forall i :: 0 <= i < |l.ticks| ==> l.ticks[i] == l.start + (i + 1) * l.period)
      && l.end == l.start + l.full + 1
  {
    var l := w.life[g];
    assert Ended(l) && Measured(l);
    if l.hasteEnabled { DivExact(l.period, l.duration / l.base); }
  }

  /** Whether an aura will go by itself: it was given a time, and that is not cut down to no period at all. */
  predicate Fades(l: Life) { l.duration != 0 && (l.hasteEnabled ==> l.base <= l.duration) }

  lemma NeverFades(l: Life)
    requires Measured(l)
    ensures l.full == 0 <==> !Fades(l)
  {
    if l.hasteEnabled && l.base <= l.duration {
      var n := l.duration / l.base;
      assert l.duration == l.base * n + l.duration % l.base;
      assert n >= 1;
      assert l.period * n >= l.period by { MulLess(l.period, 0, n); }
    }
  }

  /** An aura that fades has exactly one removal waiting, which is not after its fade time unless that was shortened. */
  lemma OneRemoval(w: World, g: nat)
    requires Inv(w) && Live(w, g) && Fades(w.life[g])
    ensures Pending(w.q, w.life[g].due, RemoveOf(w, g))
    ensures !w.life[g].shortened ==> w.now <= w.life[g].due <= w.auras[w.life[g].key].fade
    ensures forall t, i, e, u, j, f ::
      At(w.q, t, i, e) && At(w.q, u, j, f) && e.Remove? && f.Remove? && e.guid == g && f.guid == g ==>
              t == u && i == j
  {
    NeverFades(w.life[g]);
    assert Waits(w, g);
    hide Lives;
    hide Ends;
    hide Known;
    var i :| At(w.q, w.life[g].due, i, RemoveOf(w, g));
  }

  /** Any other aura has none, whatever refreshes it: it was applied for ever, or for less than a period with haste. */
  lemma NoRemoval(w: World, g: nat)
    requires Inv(w) && Live(w, g) && !Fades(w.life[g])
    ensures NoRemove(w.q, g)
  {
    NeverFades(w.life[g]);
    assert Waits(w, g);
  }

  /** An aura is applied for a time, and stays for ever: one subject to haste, for less than a period. */
  lemma ShortStays(key: Key)
    ensures var w, m := World(0, map[], map[], 0, map[]), Measure(2 * (1 / 2), 2, 2, true);
      var h := Born(w, key, 1, 1, m);
      Fits(m, 1) && Inv(h) && Live(h, 1) && h.life[1].duration != 0 && NoRemove(h.q, 1)
  {
    var w, m := World(0, map[], map[], 0, map[]), Measure(2 * (1 / 2), 2, 2, true);
    assert Inv(w);
    BornKeeps(w, key, 1, 1, m);
    NoRemoval(Born(w, key, 1, 1, m), 1);
  }

  /** Removals are never early, and on time unless a refresh shortened the aura. */
  lemma RemovedOnTime(w: World, g: nat)
    requires Inv(w) && g in w.life && w.life[g].removed
    ensures w.life[g].full != 0 && w.life[g].endFade <= w.life[g].end
    ensures !w.life[g].shortened ==> w.life[g].end == w.life[g].endFade
  {
    assert Ended(w.life[g]);
  }

  // ------------------------------------------------------------------------------------- transitions

  /** An application joins the queue. */
  lemma AppliesLater(w: World, t: nat, e: Event)
    requires Inv(w) && e.Apply? && w.now <= t
    ensures Inv(w.(q := Append(w.q, t, e)))
  {
    var h := w.(q := Append(w.q, t, e));
    AppendAt(w.q, t, e);
    AppliesQueue(w.q, t, e, w.life);
    AppendTimely(w.now, w.q, t, e);
    hide Timely;
    hide Unique;
    hide QueueKnown;
    hide Append;
    hide At;
    hide Ended;
    forall g | g in h.life && Live(h, g) ensures Waits(h, g) {
      assert Live(w, g) && Waits(w, g);
      if h.life[g].full != 0 { FadingStays(w, h, g); }
    }
  }

  lemma AppliesQueue(q: Queue<Event>, t: nat, e: Event, life: map<nat, Life>)
    requires Unique(q) && QueueKnown(q, life) && e.Apply?
    ensures Unique(Append(q, t, e)) && QueueKnown(Append(q, t, e), life)
  {
    AppendAt(q, t, e);
    hide Append;
    hide At;
  }

  /** What is pending stays pending when the queue only grows. */
  lemma FadingStays(w: World, h: World, g: nat)
    requires Live(w, g) && Fading(w, g) && Live(h, g) && h.life[g] == w.life[g]
    requires h.auras[w.life[g].key] == w.auras[w.life[g].key]
    requires forall u, i, f :: At(w.q, u, i, f) ==> At(h.q, u, i, f)
    requires forall u, i, f :: At(h.q, u, i, f) && !f.Apply? && f.guid == g ==> At(w.q, u, i, f)
    ensures Fading(h, g)
  {
    hide At;
  }

  /** The clock moves on, no further than the next event. */
  lemma ClockMoves(w: World, now: nat)
    requires Inv(w) && forall t :: t in w.q ==> now <= t
    ensures Inv(w.(now := now))
  {
    var h := w.(now := now);
    hide At;
    hide Ended;
    forall g | g in h.life && Live(h, g) ensures Waits(h, g) {
      assert Live(w, g) && Waits(w, g);
      if h.life[g].full != 0 { FadingStays(w, h, g); }
    }
  }

  /** The front event is done with and nothing waits for it: it was an application, or its aura is gone. */
  lemma DroppedStale(w: World)
    requires Inv(w) && w.now in w.q && w.q[w.now] != []
    requires var e := w.q[w.now][0]; e.Apply? || !Live(w, e.guid)
    ensures Inv(w.(q := DropFront(w.q, w.now)))
  {
    var h, e := w.(q := DropFront(w.q, w.now)), w.q[w.now][0];
    DropAt(w.q, w.now);
    assert Timely(h.now, h.q);
    assert At(w.q, w.now, 0, e);
    hide Timely;
    hide DropFront;
    DroppedUnique(w.q, w.now, h.q);
    hide Unique;
    hide Ended;
    assert Known(h);
    forall g | g in h.life && Live(h, g) ensures Waits(h, g) {
      assert Live(w, g) && Waits(w, g);
      if h.life[g].full != 0 { FadingDropped(w, h, g, e); }
    }
    hide At;
  }

  lemma DroppedUnique(q: Queue<Event>, t: nat, r: Queue<Event>)
    requires Unique(q) && t in q && q[t] != [] && r == DropFront(q, t)
    ensures Unique(r)
  {
    DropAt(q, t);
    hide DropFront;
    hide At;
    forall u, i, e, v, j, f | At(r, u, i, e) && At(r, v, j, f) && !e.Apply? && !f.Apply? && e.guid == f.guid
      && e.Remove? == f.Remove?
      ensures u == v && i == j
    {
      assert At(q, u, if u == t then i + 1 else i, e) && At(q, v, if v == t then j + 1 else j, f);
    }
  }

  /** What another instance waits for is still there when the front event goes. */
  lemma FadingDropped(w: World, h: World, g: nat, e: Event)
    requires Live(w, g) && Fading(w, g) && Live(h, g) && h.life[g] == w.life[g]
    requires h.auras[w.life[g].key] == w.auras[w.life[g].key]
    requires w.now in w.q && w.q[w.now] != [] && e == w.q[w.now][0] && h.q == DropFront(w.q, w.now)
    requires e.Apply? || e.guid != g
    ensures Fading(h, g)
  {
    DropAt(w.q, w.now);
    hide DropFront;
    KeptPending(w.q, h.q, w.now, w.life[g].due, RemoveOf(w, g));
    KeptPending(w.q, h.q, w.now, NextTick(w.life[g]), TickOf(w, g));
    KeptBefore(w.q, h.q, w.now, w.life[g].due, RemoveOf(w, g), TickOf(w, g));
    hide Pending;
    hide Before;
  }

  /** An aura that exists has stacks added; and may have its fade time set anew. */
  function Refreshed(w: World, key: Key, stacks: nat, fade: nat, setFade: bool): World
    requires key in w.auras && w.auras[key].guid in w.life
  {
    var a := w.auras[key];
    var l := w.life[a.guid];
    if !setFade then w.(auras := w.auras[key := a.(stacks := stacks)])
    else w.(auras := w.auras[key := a.(stacks := stacks, fade := fade)],
            life := w.life[a.guid := l.(refreshed := true, shortened := l.shortened || fade < a.fade || fade == 0)])
  }

  /** A refresh changes neither who the instances are nor what is queued. */
  lemma RefreshSame(w: World, key: Key, stacks: nat, fade: nat, setFade: bool)
    requires key in w.auras && w.auras[key].guid in w.life
    ensures var h := Refreshed(w, key, stacks, fade, setFade);
      && h.q == w.q && h.counter == w.counter && h.life.Keys == w.life.Keys && h.auras.Keys == w.auras.Keys
      && (forall k :: k in w.life ==> h.life[k].key == w.life[k].key && h.life[k].removed == w.life[k].removed
                                      && h.life[k].period == w.life[k].period)
      && (forall k :: k in w.auras ==> h.auras[k].guid == w.auras[k].guid)
  {}

  lemma RefreshKnown(w: World, key: Key, stacks: nat, fade: nat, setFade: bool)
    requires Known(w) && key in w.auras && w.auras[key].guid in w.life
    ensures Known(Refreshed(w, key, stacks, fade, setFade))
    ensures forall k :: Live(Refreshed(w, key, stacks, fade, setFade), k) == Live(w, k)
  {
    hide At;
    hide Refreshed;
    RefreshSame(w, key, stacks, fade, setFade);
  }

  lemma RefreshWaits(w: World, key: Key, stacks: nat, fade: nat, setFade: bool, k: nat)
    requires key in w.auras && w.auras[key].guid in w.life && w.life[w.auras[key].guid].key == key
    requires Live(w, k) && Waits(w, k) && Live(Refreshed(w, key, stacks, fade, setFade), k)
    ensures Waits(Refreshed(w, key, stacks, fade, setFade), k)
  {
    hide At;
    hide Pending;
    hide Before;
    var h := Refreshed(w, key, stacks, fade, setFade);
    if h.life[k].full != 0 && (k != w.auras[key].guid || !setFade) { FadingStays2(w, h, k); }
  }

  lemma RefreshLives(w: World, key: Key, stacks: nat, fade: nat, setFade: bool)
    requires key in w.auras && w.auras[key].guid in w.life
    ensures var h := Refreshed(w, key, stacks, fade, setFade);
      && h.life.Keys == w.life.Keys && h.now == w.now && h.q == w.q
      && (forall k :: k in h.life && Measured(w.life[k]) ==> Measured(h.life[k]))
      && (forall k :: k in h.life && k != w.auras[key].guid ==> h.life[k] == w.life[k])
      && h.life[w.auras[key].guid].removed == w.life[w.auras[key].guid].removed
  {}

  lemma RefreshKeeps(w: World, key: Key, stacks: nat, fade: nat, setFade: bool)
    requires Inv(w) && key in w.auras
    ensures w.auras[key].guid in w.life && Inv(Refreshed(w, key, stacks, fade, setFade))
  {
    hide At;
    hide Unique;
    hide Timely;
    hide Waits;
    hide Ended;
    hide Measured;
    var h, g := Refreshed(w, key, stacks, fade, setFade), w.auras[key].guid;
    assert Live(w, g);
    RefreshKnown(w, key, stacks, fade, setFade);
    RefreshLives(w, key, stacks, fade, setFade);
    forall k | k in h.life && Live(h, k) ensures Waits(h, k) {
      assert Live(w, k) && Waits(w, k);
      RefreshWaits(w, key, stacks, fade, setFade, k);
    }
    hide Refreshed;
    hide Known;
    assert Lives(h);
    hide Lives;
  }

  /** Only the fade time of an aura matters to what waits for it. */
  lemma FadingStays2(w: World, h: World, g: nat)
    requires Live(w, g) && Fading(w, g) && Live(h, g) && h.life[g] == w.life[g] && h.q == w.q
    requires h.auras[w.life[g].key].fade == w.auras[w.life[g].key].fade
    ensures Fading(h, g)
  {
    hide At;
  }

  lemma AppendUnique(q: Queue<Event>, t: nat, e: Event)
    requires Unique(q) && !e.Apply?
    requires forall u, i, f :: At(q, u, i, f) && !f.Apply? ==> f.guid != e.guid || f.Remove? != e.Remove?
    ensures Unique(Append(q, t, e))
  {
    AppendAt(q, t, e);
    hide At;
    hide Append;
  }

  /** Nothing in the queue concerns instance `g`. */
  ghost predicate Unheard(q: Queue<Event>, g: nat) { forall t, i, e :: At(q, t, i, e) && !e.Apply? ==> e.guid != g }

  /** A new aura, with its removal and its first tick, in this order. */
  function BornQueue(q: Queue<Event>, now: nat, key: Key, g: nat, full: nat, period: nat): Queue<Event> {
    var q1 := if full == 0 then q else Append(q, now + full + 1, Remove(key, g));
    if period == 0 then q1 else Append(q1, now + period, Tick(key, g, period))
  }

  function Born(w: World, key: Key, stacks: nat, duration: nat, m: Measure): World {
    var g := w.counter + 1;
    w.(q := BornQueue(w.q, w.now, key, g, m.full, m.period),
       auras := w.auras[key := Aura(g, if m.full == 0 then 0 else w.now + m.full + 1, stacks)], counter := g,
       life := w.life[g := Life(key, w.now, duration, m.base, m.hasteEnabled, m.full, m.period, [], w.now + m.full + 1,
                                false, false, false, 0, 0)])
  }

  lemma BornInOrder(q: Queue<Event>, now: nat, key: Key, g: nat, full: nat, period: nat)
    requires Timely(now, q) && Unique(q) && Unheard(q, g)
    ensures var r := BornQueue(q, now, key, g, full, period); Timely(now, r) && Unique(r)
  {
    hide At;
    hide Append;
    var q1 := if full == 0 then q else Append(q, now + full + 1, Remove(key, g));
    if full != 0 {
      AppendTimely(now, q, now + full + 1, Remove(key, g));
      AppendUnique(q, now + full + 1, Remove(key, g));
      AppendAt(q, now + full + 1, Remove(key, g));
    }
    if period != 0 {
      AppendTimely(now, q1, now + period, Tick(key, g, period));
      AppendUnique(q1, now + period, Tick(key, g, period));
    }
  }

  /** What the two events of a new instance add to the queue, and that they add nothing else. */
  lemma BornAt(q: Queue<Event>, now: nat, key: Key, g: nat, full: nat, period: nat)
    requires Unheard(q, g)
    ensures var r := BornQueue(q, now, key, g, full, period);
      && (forall u, i, f :: At(q, u, i, f) ==> At(r, u, i, f))
      && (forall u, i, f :: At(r, u, i, f) ==>
            At(q, u, i, f) || (full != 0 && f == Remove(key, g)) || (period != 0 && f == Tick(key, g, period)))
      && (if full == 0 then NoRemove(r, g) else Pending(r, now + full + 1, Remove(key, g)))
      && (period != 0 ==> Pending(r, now + period, Tick(key, g, period)))
  {
    hide At;
    hide Append;
    var q1 := if full == 0 then q else Append(q, now + full + 1, Remove(key, g));
    AppendAt(q, now + full + 1, Remove(key, g));
    AppendAt(q1, now + period, Tick(key, g, period));
  }

  lemma BornBefore(q: Queue<Event>, now: nat, key: Key, g: nat, full: nat)
    ensures Before(BornQueue(q, now, key, g, full, full + 1), now + full + 1, Remove(key, g), Tick(key, g, full + 1))
      || full == 0
  {
    if full != 0 {
      var t := now + full + 1;
      var q1 := Append(q, t, Remove(key, g));
      var n := if t in q then |q[t]| else 0;
      AppendAt(q, t, Remove(key, g));
      AppendAt(q1, t, Tick(key, g, full + 1));
      assert t in q1 && |q1[t]| == n + 1;
      var r := BornQueue(q, now, key, g, full, full + 1);
      assert At(r, t, n, Remove(key, g)) && At(r, t, n + 1, Tick(key, g, full + 1));
    }
  }

  lemma BornQueueKnown(w: World, key: Key, stacks: nat, duration: nat, m: Measure)
    requires Known(w) && w.counter + 1 !in w.life
    ensures var h := Born(w, key, stacks, duration, m); Unheard(w.q, w.counter + 1) && QueueKnown(h.q, h.life)
  {
    hide At;
    hide NoRemove;
    hide Pending;
    assert Unheard(w.q, w.counter + 1);
    BornAt(w.q, w.now, key, w.counter + 1, m.full, m.period);
    hide BornQueue;
  }

  lemma BornKnown(w: World, key: Key, stacks: nat, duration: nat, m: Measure)
    requires Known(w) && key !in w.auras
    ensures Known(Born(w, key, stacks, duration, m)) && Unheard(w.q, w.counter + 1)
  {
    hide At;
    hide BornQueue;
    hide Unheard;
    var h, g := Born(w, key, stacks, duration, m), w.counter + 1;
    assert g !in w.life;
    BornQueueKnown(w, key, stacks, duration, m);
    forall k | k in h.life
      ensures h.life[k].removed <==> !Live(h, k)
    {
      if k != g { assert w.life[k].removed <==> !Live(w, k); }
    }
  }

  lemma BornWaits(w: World, key: Key, stacks: nat, duration: nat, m: Measure)
    requires Unheard(w.q, w.counter + 1)
    ensures var h := Born(w, key, stacks, duration, m);
      Live(h, w.counter + 1) && Waits(h, w.counter + 1)
  {
    hide At;
    var h, g := Born(w, key, stacks, duration, m), w.counter + 1;
    BornAt(w.q, w.now, key, g, m.full, m.period);
    BornBefore(w.q, w.now, key, g, m.full);
    hide BornQueue;
    hide Pending;
    hide Before;
    hide NoRemove;
    assert (|h.life[g].ticks| + 1) * m.period == m.period && 0 * m.period == 0;
  }

  lemma BornKeeps(w: World, key: Key, stacks: nat, duration: nat, m: Measure)
    requires Inv(w) && key !in w.auras
    requires Fits(m, duration)
    ensures Inv(Born(w, key, stacks, duration, m))
  {
    hide At;
    hide Timely;
    hide Unique;
    hide Waits;
    hide Ended;
    var h, g := Born(w, key, stacks, duration, m), w.counter + 1;
    BornKnown(w, key, stacks, duration, m);
    BornInOrder(w.q, w.now, key, g, m.full, m.period);
    BornWaits(w, key, stacks, duration, m);
    BornAt(w.q, w.now, key, g, m.full, m.period);
    hide BornQueue;
    forall k | k in h.life && Live(h, k) ensures Waits(h, k) {
      if k != g {
        assert Live(w, k) && Waits(w, k);
        WaitsStays(w, h, k);
      }
    }
    hide Known;
  }

  lemma WaitsStays(w: World, h: World, g: nat)
    requires Live(w, g) && Waits(w, g) && Live(h, g) && h.life[g] == w.life[g]
    requires h.auras[w.life[g].key] == w.auras[w.life[g].key]
    requires forall u, i, f :: At(w.q, u, i, f) ==> At(h.q, u, i, f)
    requires forall u, i, f :: At(h.q, u, i, f) && !f.Apply? && f.guid == g ==> At(w.q, u, i, f)
    ensures Waits(h, g)
  {
    hide At;
    if w.life[g].full != 0 { FadingStays(w, h, g); }
  }

  // ------------------------------------------------------------- events that are done, or done for now

  /** The queue without its front event, or with that event put off until `t`. */
  function Requeued(q: Queue<Event>, now: nat, again: bool, t: nat): Queue<Event>
    requires now in q && q[now] != [] && now < t
  {
    DropFront(if again then Append(q, t, q[now][0]) else q, now)
  }

  /** Where everything is after the front event has gone or been put off. */
  lemma RequeuedAt(q: Queue<Event>, now: nat, again: bool, t: nat)
    requires now in q && q[now] != [] && now < t
    ensures var r, e := Requeued(q, now, again, t), q[now][0];
      && (forall u, i, f :: At(q, u, i, f) && (u != now || i > 0) ==> At(r, u, if u == now then i - 1 else i, f))
      && (again ==> At(r, t, if t in q then |q[t]| else 0, e))
      && (forall u, i, f :: At(r, u, i, f) ==>
            At(q, u, if u == now then i + 1 else i, f)
              || (again && u == t && i == (if t in q then |q[t]| else 0) && f == e))
  {
    var e := q[now][0];
    var p := if again then Append(q, t, e) else q;
    AppendAt(q, t, e);
    assert now in p && p[now] == q[now];
    DropAt(p, now);
  }

  lemma RequeuedInOrder(q: Queue<Event>, now: nat, again: bool, t: nat)
    requires Timely(now, q) && Unique(q) && now in q && q[now] != [] && now < t && !q[now][0].Apply?
    ensures Timely(now, Requeued(q, now, again, t)) && Unique(Requeued(q, now, again, t))
  {
    var r, e := Requeued(q, now, again, t), q[now][0];
    assert Timely(now, r);
    assert At(q, now, 0, e);
    RequeuedAt(q, now, again, t);
    hide Requeued;
    hide Timely;
    hide At;
    forall u, i, f, v, j, k | At(r, u, i, f) && At(r, v, j, k) && !f.Apply? && !k.Apply? && f.guid == k.guid
      && f.Remove? == k.Remove?
      ensures u == v && i == j
    {
      assert At(q, u, if u == now then i + 1 else i, f) || f == e;
      assert At(q, v, if v == now then j + 1 else j, k) || k == e;
    }
  }

  /** What waits for an instance is not disturbed by what happens to the front event of another. */
  lemma RequeuedOthers(q: Queue<Event>, now: nat, again: bool, t: nat, f: Event, f2: Event, u: nat)
    requires now in q && q[now] != [] && now < t && f != q[now][0]
    ensures Pending(q, u, f) ==> Pending(Requeued(q, now, again, t), u, f)
    ensures Before(q, u, f, f2) ==> Before(Requeued(q, now, again, t), u, f, f2)
    ensures again && Pending(q, t, f) ==> Before(Requeued(q, now, again, t), t, f, q[now][0])
  {
    var r, e := Requeued(q, now, again, t), q[now][0];
    RequeuedAt(q, now, again, t);
    if again && Pending(q, t, f) {
      var i :| At(q, t, i, f);
      assert At(r, t, i, f) && At(r, t, |q[t]|, e);
    }
    hide Requeued;
    if Pending(q, u, f) {
      var i :| At(q, u, i, f);
      assert At(r, u, if u == now then i - 1 else i, f);
    }
    if Before(q, u, f, f2) {
      var i, j :| i < j && At(q, u, i, f) && At(q, u, j, f2);
      assert At(r, u, if u == now then i - 1 else i, f) && At(r, u, if u == now then j - 1 else j, f2);
    }
  }

  lemma RequeuedFading(w: World, h: World, again: bool, t: nat, g: nat)
    requires w.now in w.q && w.q[w.now] != [] && w.now < t && h.q == Requeued(w.q, w.now, again, t)
    requires !w.q[w.now][0].Apply? && w.q[w.now][0].guid != g
    requires Live(w, g) && Fading(w, g) && Live(h, g) && h.life[g] == w.life[g]
    requires h.auras[w.life[g].key] == w.auras[w.life[g].key]
    ensures Fading(h, g)
  {
    RequeuedOthers(w.q, w.now, again, t, RemoveOf(w, g), TickOf(w, g), w.life[g].due);
    RequeuedOthers(w.q, w.now, again, t, TickOf(w, g), TickOf(w, g), NextTick(w.life[g]));
    RequeuedAt(w.q, w.now, again, t);
    hide Requeued;
    hide Pending;
    hide Before;
    hide At;
  }

  /** A tick: it is noted, and put off by a period unless the aura will have faded by then. */
  function Ticked(w: World): World
    requires w.now in w.q && w.q[w.now] != [] && w.q[w.now][0].Tick? && Live(w, w.q[w.now][0].guid)
    requires w.q[w.now][0].period > 0
  {
    var e := w.q[w.now][0];
    var l := w.life[e.guid];
    var again := w.now + e.period <= w.auras[l.key].fade;
    w.(q := Requeued(w.q, w.now, again, w.now + e.period), life := w.life[e.guid := l.(ticks := l.ticks + [w.now])])
  }

  /** When a tick of an aura that has not been refreshed is due, it is the next one, and the aura has not faded. */
  lemma TickOnTime(w: World)
    requires Inv(w) && w.now in w.q && w.q[w.now] != [] && w.q[w.now][0].Tick? && Live(w, w.q[w.now][0].guid)
    requires var l := w.life[w.q[w.now][0].guid]; l.full != 0 && !l.refreshed
    ensures var e := w.q[w.now][0];
      var l := w.life[e.guid];
      e == TickOf(w, e.guid) && l.period > 0 && w.now == NextTick(l) && w.now < l.due == l.start + l.full + 1
  {
    var e := w.q[w.now][0];
    var l := w.life[e.guid];
    assert At(w.q, w.now, 0, e);
    assert Waits(w, e.guid) && Fading(w, e.guid);
    assert e == TickOf(w, e.guid);
    hide Lives;
    hide Ends;
    hide Waits;
    assert Continues(l);
    var i :| At(w.q, NextTick(l), i, e);
    assert NextTick(l) == w.now;
    var j :| At(w.q, l.due, j, RemoveOf(w, e.guid));
  }

  lemma TickedWaits(w: World)
    requires Inv(w) && w.now in w.q && w.q[w.now] != [] && w.q[w.now][0].Tick? && Live(w, w.q[w.now][0].guid)
    requires w.q[w.now][0].period > 0
    ensures var g := w.q[w.now][0].guid; Live(Ticked(w), g) && Waits(Ticked(w), g)
  {
    hide Inv;
    hide Requeued;
    hide At;
    hide Unique;
    var e := w.q[w.now][0];
    var g := e.guid;
    var l, h := w.life[g], Ticked(w);
    var again := w.now + e.period <= w.auras[l.key].fade;
    InvLive(w, g);
    RequeuedAt(w.q, w.now, again, w.now + e.period);
    RequeuedOthers(w.q, w.now, again, w.now + e.period, RemoveOf(w, g), e, l.due);
    RequeuedOthers(w.q, w.now, again, w.now + e.period, RemoveOf(w, g), e, w.now + e.period);
    if l.full != 0 && !l.refreshed {
      TickOnTime(w);
      TickedTimes(l, w.now);
      NoMoreTicks(w, again);
    }
  }

  lemma InvLive(w: World, g: nat)
    requires Inv(w) && Live(w, g)
    ensures Waits(w, g) && Unique(w.q)
  {}

  /** The arithmetic of one more tick. */
  lemma TickedTimes(l: Life, now: nat)
    requires Regular(l) && now == NextTick(l) && now < l.start + l.full + 1
    ensures var m := l.(ticks := l.ticks + [now]); Regular(m) && NextTick(m) == now + l.period
  {
    var m := l.(ticks := l.ticks + [now]);
    assert (|l.ticks| + 1) * l.period == |l.ticks| * l.period + l.period;
    assert (|m.ticks| + 1) * l.period == |m.ticks| * l.period + l.period;
    forall i | 0 <= i < |m.ticks| ensures m.ticks[i] == m.start + (i + 1) * m.period {
      if i < |l.ticks| { assert m.ticks[i] == l.ticks[i]; }
    }
  }

  lemma NoMoreTicks(w: World, again: bool)
    requires Unique(w.q) && w.now in w.q && w.q[w.now] != [] && w.q[w.now][0].Tick? && w.q[w.now][0].period > 0
    ensures !again ==> NoTick(Requeued(w.q, w.now, again, w.now + w.q[w.now][0].period), w.q[w.now][0].guid)
  {
    var e := w.q[w.now][0];
    RequeuedAt(w.q, w.now, again, w.now + e.period);
    assert At(w.q, w.now, 0, e);
    hide Requeued;
    hide At;
  }

  /** Nothing is known less when the front event goes or is put off, as long as the instances stay. */
  lemma RequeuedKnown(w: World, h: World, again: bool, t: nat)
    requires Known(w) && w.now in w.q && w.q[w.now] != [] && w.now < t && h.q == Requeued(w.q, w.now, again, t)
    requires h.counter == w.counter && h.life.Keys == w.life.Keys
    requires forall k :: k in h.life ==> h.life[k].key == w.life[k].key && h.life[k].period == w.life[k].period
                                         && (h.life[k].removed <==> !Live(h, k))
    requires forall k :: k in h.auras ==> k in w.auras && h.auras[k].guid == w.auras[k].guid
    ensures Known(h)
  {
    RequeuedAt(w.q, w.now, again, t);
    assert At(w.q, w.now, 0, w.q[w.now][0]);
    hide Requeued;
    hide At;
  }

  lemma RequeuedWaits(w: World, h: World, again: bool, t: nat, g: nat)
    requires w.now in w.q && w.q[w.now] != [] && w.now < t && h.q == Requeued(w.q, w.now, again, t)
    requires !w.q[w.now][0].Apply? && w.q[w.now][0].guid != g
    requires Live(w, g) && Waits(w, g) && Live(h, g) && h.life[g] == w.life[g]
    requires h.auras[w.life[g].key] == w.auras[w.life[g].key]
    ensures Waits(h, g)
  {
    RequeuedAt(w.q, w.now, again, t);
    if w.life[g].full != 0 { RequeuedFading(w, h, again, t, g); }
    hide Requeued;
    hide At;
  }

  /** No aura is new, and none has changed but that of instance `g`. */
  ghost predicate OthersSame(w: World, h: World, g: nat)
    requires g in w.life
  {
    && (forall k :: k in h.auras ==> k in w.auras && h.auras[k].guid == w.auras[k].guid)
    && (forall k :: k in w.auras && k != w.life[g].key ==> k in h.auras && h.auras[k] == w.auras[k])
  }

  /** The front event has been dealt with, and only its own instance has changed. */
  lemma Dealt(w: World, h: World, again: bool, t: nat, g: nat)
    requires Inv(w) && w.now in w.q && w.q[w.now] != [] && !w.q[w.now][0].Apply? && w.now < t
    requires w.q[w.now][0].guid == g && Live(w, g) && g in h.life
    requires h == w.(q := Requeued(w.q, w.now, again, t), auras := h.auras, life := w.life[g := h.life[g]])
    requires h.life[g].key == w.life[g].key && h.life[g].period == w.life[g].period
    requires Measured(w.life[g]) ==> Measured(h.life[g])
    requires (h.life[g].removed <==> !Live(h, g)) && (Live(h, g) ==> Waits(h, g))
    requires (h.life[g].removed ==> Ended(h.life[g])) && OthersSame(w, h, g)
    ensures Inv(h)
  {
    hide Requeued;
    hide At;
    hide Waits;
    hide Ended;
    hide Measured;
    hide OthersSame;
    RequeuedInOrder(w.q, w.now, again, t);
    hide Timely;
    hide Unique;
    DealtKnown(w, h, again, t, g);
    hide Known;
    forall k | k in h.life && Live(h, k) ensures Waits(h, k) {
      if k != g {
        assert Live(w, k) && Waits(w, k);
        DealtOther(w, h, again, t, g, k);
      }
    }
  }

  lemma DealtOther(w: World, h: World, again: bool, t: nat, g: nat, k: nat)
    requires w.now in w.q && w.q[w.now] != [] && !w.q[w.now][0].Apply? && w.now < t && w.q[w.now][0].guid == g
    requires Live(w, g) && k != g && Live(w, k) && Waits(w, k) && Live(h, k)
    requires h.q == Requeued(w.q, w.now, again, t) && h.life[k] == w.life[k] && OthersSame(w, h, g)
    ensures Waits(h, k)
  {
    hide Requeued;
    hide Waits;
    RequeuedWaits(w, h, again, t, k);
  }

  lemma DealtKnown(w: World, h: World, again: bool, t: nat, g: nat)
    requires Known(w) && w.now in w.q && w.q[w.now] != [] && w.now < t && Live(w, g) && g in h.life
    requires h == w.(q := Requeued(w.q, w.now, again, t), auras := h.auras, life := w.life[g := h.life[g]])
    requires h.life[g].key == w.life[g].key && h.life[g].period == w.life[g].period
    requires (h.life[g].removed <==> !Live(h, g)) && OthersSame(w, h, g)
    ensures Known(h)
    ensures forall k :: k in h.life && k != g ==> (Live(h, k) <==> Live(w, k)) && (h.life[k].removed <==> !Live(h, k))
  {
    hide Requeued;
    hide At;
    DealtLive(w, h, g);
    RequeuedKnown(w, h, again, t);
  }

  lemma DealtLive(w: World, h: World, g: nat)
    requires Known(w) && g in w.life && g in h.life && h.life == w.life[g := h.life[g]]
    requires h.life[g].key == w.life[g].key
    requires forall k :: k in h.auras ==> k in w.auras && h.auras[k].guid == w.auras[k].guid
    requires forall k :: k in w.auras && k != w.life[g].key ==> k in h.auras && h.auras[k] == w.auras[k]
    requires h.life[g].removed <==> !Live(h, g)
    requires w.life[g].key in w.auras && w.auras[w.life[g].key].guid == g
    ensures forall k :: k in h.life && k != g ==> (Live(h, k) <==> Live(w, k)) && (h.life[k].removed <==> !Live(h, k))
  {
    hide At;
    forall k | k in h.life && k != g ensures (Live(h, k) <==> Live(w, k)) && (h.life[k].removed <==> !Live(h, k)) {
      assert w.life[k].removed <==> !Live(w, k);
    }
  }

  lemma TickedLife(w: World)
    requires Inv(w) && w.now in w.q && w.q[w.now] != [] && w.q[w.now][0].Tick? && Live(w, w.q[w.now][0].guid)
    requires w.q[w.now][0].period > 0
    ensures var h, g := Ticked(w), w.q[w.now][0].guid;
      (Measured(w.life[g]) ==> Measured(h.life[g])) && !h.life[g].removed && OthersSame(w, h, g)
  {}

  lemma TickedKeeps(w: World)
    requires Inv(w) && w.now in w.q && w.q[w.now] != [] && w.q[w.now][0].Tick? && Live(w, w.q[w.now][0].guid)
    ensures w.q[w.now][0].period > 0 && Inv(Ticked(w))
  {
    hide Inv;
    hide Requeued;
    hide At;
    hide Waits;
    hide Measured;
    hide Ended;
    var e := w.q[w.now][0];
    FrontKnown(w);
    TickedWaits(w);
    TickedLife(w);
    Dealt(w, Ticked(w), w.now + e.period <= w.auras[w.life[e.guid].key].fade, w.now + e.period, e.guid);
  }

  /** A removal that comes before the aura fades is put off until it does. */
  function Delayed(w: World): World
    requires w.now in w.q && w.q[w.now] != [] && w.q[w.now][0].Remove? && Live(w, w.q[w.now][0].guid)
    requires w.auras[w.life[w.q[w.now][0].guid].key].fade > w.now
  {
    var g := w.q[w.now][0].guid;
    var fade := w.auras[w.life[g].key].fade;
    w.(q := Requeued(w.q, w.now, true, fade), life := w.life[g := w.life[g].(due := fade)])
  }

  lemma RemovalDue(w: World)
    requires Inv(w) && w.now in w.q && w.q[w.now] != [] && w.q[w.now][0].Remove? && Live(w, w.q[w.now][0].guid)
    ensures var e := w.q[w.now][0];
      e == RemoveOf(w, e.guid) && w.life[e.guid].full != 0 && w.life[e.guid].due == w.now && Fading(w, e.guid)
  {
    var e := w.q[w.now][0];
    var g := e.guid;
    assert At(w.q, w.now, 0, e);
    assert Waits(w, g);
    assert w.life[g].full != 0;
    hide Lives;
    hide Ends;
    var i :| At(w.q, w.life[g].due, i, RemoveOf(w, g));
    hide Fading;
    hide Waits;
  }

  lemma DelayedKeeps(w: World)
    requires Inv(w) && w.now in w.q && w.q[w.now] != [] && w.q[w.now][0].Remove? && Live(w, w.q[w.now][0].guid)
    requires w.auras[w.life[w.q[w.now][0].guid].key].fade > w.now
    ensures Inv(Delayed(w))
  {
    var e := w.q[w.now][0];
    var g, h := e.guid, Delayed(w);
    var fade := w.auras[w.life[g].key].fade;
    RemovalDue(w);
    RequeuedAt(w.q, w.now, true, fade);
    hide Requeued;
    assert Fading(h, g) by {
      hide At;
      hide Known;
      hide Lives;
      hide Ends;
    }
    hide Fading;
    hide At;
    hide Inv;
    Dealt(w, h, true, fade, g);
  }

  /** The aura goes. */
  function Removed(w: World): World
    requires w.now in w.q && w.q[w.now] != [] && w.q[w.now][0].Remove? && Live(w, w.q[w.now][0].guid)
  {
    var g := w.q[w.now][0].guid;
    var l := w.life[g];
    w.(q := DropFront(w.q, w.now), auras := w.auras - {l.key},
       life := w.life[g := l.(removed := true, end := w.now, endFade := w.auras[l.key].fade)])
  }

  /** By the time it goes, it has ticked as often as it should. */
  lemma RemovedEnded(w: World)
    requires Inv(w) && w.now in w.q && w.q[w.now] != [] && w.q[w.now][0].Remove? && Live(w, w.q[w.now][0].guid)
    requires w.auras[w.life[w.q[w.now][0].guid].key].fade <= w.now
    ensures Ended(Removed(w).life[w.q[w.now][0].guid])
  {
    var e := w.q[w.now][0];
    var g := e.guid;
    var l := w.life[g];
    RemovalDue(w);
    if !l.refreshed && l.period != 0 {
      if Continues(l) {
        var i :| At(w.q, NextTick(l), i, TickOf(w, g));
        assert NextTick(l) >= w.now;
      }
      hide Lives;
      hide Known;
      hide Unique;
      Complete(l);
    }
  }

  lemma Complete(l: Life)
    requires Regular(l) && l.period != 0 && NextTick(l) >= l.start + l.full + 1
    ensures |l.ticks| == l.full / l.period
  {
    assert (|l.ticks| + 1) * l.period == l.period * |l.ticks| + l.period;
    assert |l.ticks| * l.period == l.period * |l.ticks|;
    DivIs(l.full, l.period, |l.ticks|);
  }

  lemma RemovedKeeps(w: World)
    requires Inv(w) && w.now in w.q && w.q[w.now] != [] && w.q[w.now][0].Remove? && Live(w, w.q[w.now][0].guid)
    requires w.auras[w.life[w.q[w.now][0].guid].key].fade <= w.now
    ensures Inv(Removed(w))
  {
    var e := w.q[w.now][0];
    var g, h := e.guid, Removed(w);
    RemovedEnded(w);
    assert h.q == Requeued(w.q, w.now, false, w.now + 1);
    hide Requeued;
    hide DropFront;
    hide Inv;
    hide Ended;
    hide Waits;
    Dealt(w, h, false, w.now + 1, g);
  }

  lemma FrontKnown(w: World)
    requires Inv(w) && w.now in w.q && w.q[w.now] != [] && !w.q[w.now][0].Apply?
    ensures w.q[w.now][0].guid in w.life && w.life[w.q[w.now][0].guid].key == w.q[w.now][0].key
    ensures w.q[w.now][0].Tick? ==> w.q[w.now][0].period >= 1
  {
    assert At(w.q, w.now, 0, w.q[w.now][0]);
  }

  lemma NotEmpty(w: World)
    requires Inv(w)
    ensures forall t :: t in w.q ==> w.q[t] != []
  {}

  /** No pending event is behind the clock. */
  lemma Due(w: World)
    requires Inv(w)
    ensures forall t :: t in w.q ==> w.now <= t
  {}
}
