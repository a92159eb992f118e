/**
  One aura among all others: what the turns of the event queue leave alone of it, and of the applications
  that are on their way to it.
 */
module EffectWorld {
  import opened Basics
  import opened Queues
  import opened Auras

  // ------------------------------------------------------------------- the world around an effect

  predicate HasFront(w: World) { w.now in w.q && w.q[w.now] != [] }

  function Front(w: World): Event
    requires HasFront(w)
  {
    w.q[w.now][0]
  }

  /** What is not subject to haste, and does not tick. */
  function Plain(full: nat): Measure { Measure(full, 0, 0, false) }

  /** If the front event makes a new aura, `m` is its measure. */
  predicate Suits(w: World, m: Measure)
    requires HasFront(w)
  {
    Front(w).Apply? && Front(w).key !in w.auras ==> Fits(m, Front(w).duration)
  }

  function Applied(w: World, e: Event, m: Measure): World
    requires Inv(w) && e.Apply? && (e.key !in w.auras ==> Fits(m, e.duration))
  {
    if e.key in w.auras then
      var a := w.auras[e.key];
      var fade := if !e.setFade then a.fade else if m.full == 0 then 0 else m.full + w.now + 1;
      Refreshed(w, e.key, a.stacks + e.stacks, fade, e.setFade)
    else Born(w, e.key, e.stacks, e.duration, m)
  }

  lemma AppliedKeeps(w: World, e: Event, m: Measure)
    requires Inv(w) && HasFront(w) && e == Front(w) && e.Apply? && Suits(w, m)
    ensures var h := Applied(w, e, m);
      Inv(h) && HasFront(h) && h.now == w.now && Front(h) == e && h.q[h.now][1..] == w.q[w.now][1..]
  {
    hide Inv;
    if e.key in w.auras {
      var a := w.auras[e.key];
      var fade := if !e.setFade then a.fade else if m.full == 0 then 0 else m.full + w.now + 1;
      RefreshKeeps(w, e.key, a.stacks + e.stacks, fade, e.setFade);
    } else {
      BornKeeps(w, e.key, e.stacks, e.duration, m);
    }
  }

  /** The front event runs and is taken off; for an application, `m` says what it comes to. */
  function Turned(w: World, m: Measure): World
    requires Inv(w) && HasFront(w) && Suits(w, m)
  {
    var e := Front(w);
    match e
    case Apply(_, _, _, _) =>
      AppliedKeeps(w, e, m);
      var h := Applied(w, e, m);
      h.(q := DropFront(h.q, h.now))
    case Remove(_, g) =>
      FrontKnown(w);
      if !Live(w, g) then w.(q := DropFront(w.q, w.now))
      else if w.auras[w.life[g].key].fade > w.now then Delayed(w) else Removed(w)
    case Tick(_, g, period) =>
      FrontKnown(w);
      if !Live(w, g) then w.(q := DropFront(w.q, w.now)) else Ticked(w)
  }

  ghost predicate Turns(w: World, m: Measure, h: World) { Inv(w) && HasFront(w) && Suits(w, m) && h == Turned(w, m) }

  lemma TurnedKeeps(w: World, m: Measure)
    requires Inv(w) && HasFront(w) && Suits(w, m)
    ensures Inv(Turned(w, m))
  {
    var e := Front(w);
    match e
    case Apply(_, _, _, _) =>
      AppliedKeeps(w, e, m);
      hide Inv;
      DroppedStale(Applied(w, e, m));
    case Remove(_, g) =>
      FrontKnown(w);
      hide Inv;
      if !Live(w, g) { DroppedStale(w); } else if w.auras[w.life[g].key].fade > w.now { DelayedKeeps(w); }
        else { RemovedKeeps(w); }
    case Tick(_, g, period) =>
      FrontKnown(w);
      hide Inv;
      if !Live(w, g) { DroppedStale(w); } else { TickedKeeps(w); }
  }

  // ----------------------------------------------------------------------- what other events leave alone

  /** Events of key `k` are where they were. */
  ghost predicate SamePlaces(q: Queue<Event>, r: Queue<Event>, k: Key) {
    forall u, i, f: Event :: f.key == k ==> (At(q, u, i, f) <==> At(r, u, i, f))
  }

  lemma AppendElse(q: Queue<Event>, t: nat, e: Event, k: Key)
    requires e.key != k
    ensures SamePlaces(q, Append(q, t, e), k)
  {
    AppendAt(q, t, e);
    hide At;
    hide Append;
  }

  lemma BornElse(q: Queue<Event>, now: nat, key: Key, g: nat, full: nat, period: nat, k: Key)
    requires key != k
    ensures SamePlaces(q, BornQueue(q, now, key, g, full, period), k)
  {
    hide Append;
    hide SamePlaces;
    var q1 := if full == 0 then q else Append(q, now + full + 1, Remove(key, g));
    if full == 0 { PlacesSame(q, k); } else { AppendElse(q, now + full + 1, Remove(key, g), k); }
    if period == 0 { PlacesSame(q1, k); } else { AppendElse(q1, now + period, Tick(key, g, period), k); }
    PlacesTrans(q, q1, BornQueue(q, now, key, g, full, period), k);
  }

  lemma PlacesSame(q: Queue<Event>, k: Key)
    ensures SamePlaces(q, q, k)
  {}

  lemma PlacesTrans(q: Queue<Event>, p: Queue<Event>, r: Queue<Event>, k: Key)
    requires SamePlaces(q, p, k) && SamePlaces(p, r, k)
    ensures SamePlaces(q, r, k)
  {
    hide At;
  }

  function Shift(u: nat, now: nat, i: int): int { if u == now then i - 1 else i }

  function Back(u: nat, now: nat, i: int): int { if u == now then i + 1 else i }

  /** Events of key `k` are where they were, but for the front event `e` that has gone. */
  ghost predicate Moved(q: Queue<Event>, r: Queue<Event>, now: nat, k: Key, e: Event) {
    && (forall u, i, f :: At(q, u, i, f) && f.key == k && f != e ==> At(r, u, Shift(u, now, i), f))
    && (forall u, i, f :: At(r, u, i, f) && f.key == k && f != e ==> At(q, u, Back(u, now, i), f))
  }

  /** The same, if only `e` itself has been added meanwhile. */
  lemma DropMoved(q: Queue<Event>, p: Queue<Event>, now: nat, k: Key)
    requires now in p && p[now] != []
    requires forall u, i, f: Event :: f.key == k && f != p[now][0] ==> (At(q, u, i, f) <==> At(p, u, i, f))
    ensures Moved(q, DropFront(p, now), now, k, p[now][0])
  {
    DropAt(p, now);
    var r := DropFront(p, now);
    var e := p[now][0];
    hide DropFront;
    forall u, i, f | At(q, u, i, f) && f.key == k && f != e
      ensures At(r, u, Shift(u, now, i), f)
    {
      assert At(p, u, i, f);
    }
  }

  lemma DropElse(q: Queue<Event>, p: Queue<Event>, now: nat, k: Key)
    requires SamePlaces(q, p, k) && now in p && p[now] != [] && p[now][0].key != k
    ensures Moved(q, DropFront(p, now), now, k, p[now][0])
  {
    hide At;
    hide DropFront;
    DropMoved(q, p, now, k);
  }

  /** What the queue was extended by before the front event was taken off it. */
  ghost predicate Extended(w: World, m: Measure, p: Queue<Event>)
    requires HasFront(w)
  {
    || p == w.q
    || (exists t :: p == Append(w.q, t, Front(w)))
    || (Front(w).Apply? && p == BornQueue(w.q, w.now, Front(w).key, w.counter + 1, m.full, m.period))
  }

  lemma TurnedApply(w: World, m: Measure) returns (p: Queue<Event>)
    requires Inv(w) && HasFront(w) && Front(w).Apply? && Suits(w, m)
    ensures w.now in p && p[w.now] != [] && p[w.now][0] == Front(w) && Extended(w, m, p)
    ensures Turned(w, m).q == DropFront(p, w.now)
  {
    hide Inv;
    hide Fits;
    AppliedKeeps(w, Front(w), m);
    p := Applied(w, Front(w), m).q;
    assert p == w.q || p == BornQueue(w.q, w.now, Front(w).key, w.counter + 1, m.full, m.period);
    hide BornQueue;
    hide DropFront;
  }

  lemma TurnedRemove(w: World, m: Measure) returns (p: Queue<Event>)
    requires Inv(w) && HasFront(w) && Front(w).Remove?
    ensures p == w.q || exists t :: p == Append(w.q, t, Front(w))
    ensures w.now in p && p[w.now] != [] && p[w.now][0] == Front(w) && Extended(w, m, p)
    ensures Turned(w, m).q == DropFront(p, w.now)
  {
    var e := Front(w);
    FrontKnown(w);
    hide Inv;
    hide DropFront;
    p := w.q;
    if Live(w, e.guid)
      && w.auras[w.life[e.guid].key].fade > w.now { p := Append(w.q, w.auras[w.life[e.guid].key].fade, e); }
  }

  lemma TurnedTick(w: World, m: Measure) returns (p: Queue<Event>)
    requires Inv(w) && HasFront(w) && Front(w).Tick?
    ensures w.now in p && p[w.now] != [] && p[w.now][0] == Front(w) && Extended(w, m, p)
    ensures Turned(w, m).q == DropFront(p, w.now)
  {
    var e := Front(w);
    FrontKnown(w);
    hide Inv;
    hide DropFront;
    p := w.q;
    if Live(w, e.guid)
      && w.now + e.period <= w.auras[w.life[e.guid].key].fade { p := Append(w.q, w.now + e.period, e); }
  }

  /** Whatever the front event is, if it is of another key. */
  lemma TurnedMoved(w: World, m: Measure, k: Key)
    requires Inv(w) && HasFront(w) && Front(w).key != k
    requires Suits(w, m)
    ensures Moved(w.q, Turned(w, m).q, w.now, k, Front(w))
  {
    var p := TurnedFrom(w, m);
    hide Inv;
    hide Turned;
    hide Moved;
    hide DropFront;
    hide BornQueue;
    hide Append;
    ExtendedElse(w, m, p, k);
    DropElse(w.q, p, w.now, k);
  }

  /** Removals of key `k` too leave its other events alone. */
  lemma RemovalMoved(w: World, m: Measure)
    requires Inv(w) && HasFront(w) && Front(w).Remove?
    ensures Moved(w.q, Turned(w, m).q, w.now, Front(w).key, Front(w))
  {
    var p := TurnedRemove(w, m);
    hide Inv;
    hide Turned;
    hide Moved;
    hide DropFront;
    if t :| p == Append(w.q, t, Front(w)) { AppendAt(w.q, t, Front(w)); }
    hide Append;
    hide At;
    DropMoved(w.q, p, w.now, Front(w).key);
  }

  lemma TurnedFrom(w: World, m: Measure) returns (p: Queue<Event>)
    requires Inv(w) && HasFront(w) && Suits(w, m)
    ensures w.now in p && p[w.now] != [] && p[w.now][0] == Front(w) && Extended(w, m, p)
    ensures Turned(w, m).q == DropFront(p, w.now)
  {
    match Front(w) {
      case Apply(_, _, _, _) => p := TurnedApply(w, m);
      case Remove(_, _) => p := TurnedRemove(w, m);
      case Tick(_, _, _) => p := TurnedTick(w, m);
    }
  }

  lemma ExtendedElse(w: World, m: Measure, p: Queue<Event>, k: Key)
    requires HasFront(w) && Extended(w, m, p) && Front(w).key != k
    ensures SamePlaces(w.q, p, k)
  {
    hide Append;
    hide BornQueue;
    if p == w.q {
    } else if t :| p == Append(w.q, t, Front(w)) {
      AppendElse(w.q, t, Front(w), k);
    } else {
      BornElse(w.q, w.now, Front(w).key, w.counter + 1, m.full, m.period, k);
    }
  }

  /** The aura of key `k`, and its history, are as they were. */
  ghost predicate SameAura(w: World, h: World, k: Key) {
    && (k in h.auras <==> k in w.auras)
    && (k in w.auras ==> h.auras[k] == w.auras[k] && w.auras[k].guid in w.life && w.auras[k].guid in h.life
                         && h.life[w.auras[k].guid] == w.life[w.auras[k].guid])
  }

  lemma AurasKnown(w: World)
    requires Inv(w)
    ensures forall j :: j in w.auras ==>
      w.auras[j].guid in w.life && w.life[w.auras[j].guid].key == j && w.auras[j].guid <= w.counter
  {
    hide At;
  }

  lemma RefreshedElse(w: World, key: Key, stacks: nat, fade: nat, setFade: bool, k: Key)
    requires key in w.auras && key != k && w.auras[key].guid in w.life && w.life[w.auras[key].guid].key == key
    requires k in w.auras ==> w.auras[k].guid in w.life && w.life[w.auras[k].guid].key == k
    ensures SameAura(w, Refreshed(w, key, stacks, fade, setFade), k)
  {}

  lemma BornElsewhere(w: World, key: Key, stacks: nat, duration: nat, m: Measure, k: Key)
    requires key != k && (k in w.auras ==> w.auras[k].guid in w.life && w.auras[k].guid <= w.counter)
    ensures SameAura(w, Born(w, key, stacks, duration, m), k)
  {
    hide BornQueue;
  }

  lemma TurnedElse(w: World, m: Measure, k: Key)
    requires Inv(w) && HasFront(w) && Front(w).key != k
    requires Suits(w, m)
    ensures SameAura(w, Turned(w, m), k)
  {
    AurasKnown(w);
    var e := Front(w);
    if !e.Apply? { FrontKnown(w); } else { AppliedKeeps(w, e, m); }
    hide Inv;
    hide Requeued;
    hide DropFront;
    hide BornQueue;
    hide SameAura;
    match e
    case Apply(_, _, _, _) =>
      AppliedElse(w, e, m, k);
      var h := Applied(w, e, m);
      SameToo(w, h, h.(q := DropFront(h.q, h.now)), k);
    case Remove(_, g) => RemoveElse(w, m, k);
    case Tick(_, g, period) => TickElse(w, m, k);
  }

  lemma SameToo(w: World, h: World, r: World, k: Key)
    requires SameAura(w, h, k) && r.auras == h.auras && r.life == h.life
    ensures SameAura(w, r, k)
  {}

  lemma AppliedElse(w: World, e: Event, m: Measure, k: Key)
    requires Inv(w) && e.Apply? && e.key != k && (e.key !in w.auras ==> Fits(m, e.duration))
    ensures SameAura(w, Applied(w, e, m), k)
  {
    AurasKnown(w);
    hide Inv;
    hide SameAura;
    hide Refreshed;
    hide Born;
    if e.key in w.auras {
      var a := w.auras[e.key];
      var fade := if !e.setFade then a.fade else if m.full == 0 then 0 else m.full + w.now + 1;
      RefreshedElse(w, e.key, a.stacks + e.stacks, fade, e.setFade, k);
    } else {
      BornElsewhere(w, e.key, e.stacks, e.duration, m, k);
    }
  }

  lemma RemoveElse(w: World, m: Measure, k: Key)
    requires Inv(w) && HasFront(w) && Front(w).Remove? && Front(w).key != k
    ensures SameAura(w, Turned(w, m), k)
  {
    AurasKnown(w);
    FrontKnown(w);
    hide Inv;
    hide Requeued;
    hide DropFront;
  }

  lemma TickElse(w: World, m: Measure, k: Key)
    requires Inv(w) && HasFront(w) && Front(w).Tick? && Front(w).key != k
    ensures SameAura(w, Turned(w, m), k)
  {
    AurasKnown(w);
    FrontKnown(w);
    hide Inv;
    hide Requeued;
    hide DropFront;
  }

  // -------------------------------------------------------------------------- applications on their way

  predicate Applies(e: Event, k: Key) { e.Apply? && e.key == k }

  /** No application of key `k` is on its way but `o`, which is due now. */
  ghost predicate Asked(w: World, k: Key, o: Option<Event>) {
    && (forall t, i, e :: At(w.q, t, i, e) && Applies(e, k) ==> o == Some(e) && t == w.now)
    && (forall t, i, e, u, j, f ::
          At(w.q, t, i, e) && Applies(e, k) && At(w.q, u, j, f) && Applies(f, k) ==> t == u && i == j)
    && (o.Some? ==> Applies(o.value, k) && Pending(w.q, w.now, o.value))
  }

  lemma AskedMoved(w: World, h: World, k: Key, o: Option<Event>, e: Event)
    requires Asked(w, k, o) && Moved(w.q, h.q, w.now, k, e) && h.now == w.now && !Applies(e, k)
    ensures Asked(h, k, o)
  {
    hide Moved;
    hide At;
    if o.Some? {
      var i :| At(w.q, w.now, i, o.value);
      MovedAt(w.q, h.q, w.now, k, e, w.now, i, o.value);
    }
    forall t, i, f | At(h.q, t, i, f) && Applies(f, k) ensures At(w.q, t, Back(t, w.now, i), f) {
      MovedBack(w.q, h.q, w.now, k, e, t, i, f);
    }
  }

  lemma MovedAt(q: Queue<Event>, r: Queue<Event>, now: nat, k: Key, e: Event, u: nat, i: int, f: Event)
    requires Moved(q, r, now, k, e) && At(q, u, i, f) && f.key == k && f != e
    ensures At(r, u, Shift(u, now, i), f)
  {
    hide At;
  }

  lemma MovedBack(q: Queue<Event>, r: Queue<Event>, now: nat, k: Key, e: Event, u: nat, i: int, f: Event)
    requires Moved(q, r, now, k, e) && At(r, u, i, f) && f.key == k && f != e
    ensures At(q, u, Back(u, now, i), f)
  {
    hide At;
  }

  lemma BeforeMoved(w: World, h: World, k: Key, e: Event, f: Event, g: Event)
    requires Moved(w.q, h.q, w.now, k, e) && f.key == k && g.key == k && f != e && g != e && Before(w.q, w.now, f, g)
    ensures Before(h.q, w.now, f, g)
  {
    hide At;
    hide Moved;
    var i, j :| i < j && At(w.q, w.now, i, f) && At(w.q, w.now, j, g);
    MovedAt(w.q, h.q, w.now, k, e, w.now, i, f);
    MovedAt(w.q, h.q, w.now, k, e, w.now, j, g);
  }

  /** An application of the key joins the queue. */
  lemma AskedNow(w: World, k: Key, e: Event)
    requires Asked(w, k, None) && Applies(e, k)
    ensures Asked(w.(q := Append(w.q, w.now, e)), k, Some(e))
    ensures forall f :: Pending(w.q, w.now, f) ==> Before(Append(w.q, w.now, e), w.now, f, e)
    ensures forall u, f :: Pending(w.q, u, f) ==> Pending(Append(w.q, w.now, e), u, f)
  {
    var n := if w.now in w.q then |w.q[w.now]| else 0;
    AppendAt(w.q, w.now, e);
    assert forall i, f :: At(w.q, w.now, i, f) ==> i < n;
    hide Append;
    hide At;
    forall f | Pending(w.q, w.now, f) ensures Before(Append(w.q, w.now, e), w.now, f, e) {
      var i :| At(w.q, w.now, i, f);
      assert i < n && At(Append(w.q, w.now, e), w.now, n, e);
    }
  }

  /** The application that was on its way is in front, runs, and is gone. */
  lemma AskedDropped(w: World, k: Key, p: Queue<Event>)
    requires HasFront(w) && Applies(Front(w), k) && Asked(w, k, Some(Front(w)))
    requires w.now in p && p[w.now] != []
    requires forall u, i, f: Event :: Applies(f, k) ==> (At(w.q, u, i, f) <==> At(p, u, i, f))
    ensures Asked(w.(q := DropFront(p, w.now)), k, None)
  {
    DropAt(p, w.now);
    assert At(w.q, w.now, 0, Front(w));
    hide DropFront;
    hide At;
    assert forall t, i, e :: At(DropFront(p, w.now), t, i, e) && Applies(e, k) ==>
      At(w.q, t, if t == w.now then i + 1 else i, e);
    NotNegative(DropFront(p, w.now));
  }

  lemma NotNegative(q: Queue<Event>)
    ensures forall t, i, e :: At(q, t, i, e) ==> i >= 0
  {}

  /** Other applications may join the queue. */
  lemma AskedElse(w: World, k: Key, o: Option<Event>, e: Event)
    requires Asked(w, k, o) && e.key != k
    ensures Asked(w.(q := Append(w.q, w.now, e)), k, o)
  {
    AppendElse(w.q, w.now, e, k);
    hide Append;
    hide At;
    if o.Some? {
      var i :| At(w.q, w.now, i, o.value);
      assert At(Append(w.q, w.now, e), w.now, i, o.value);
    }
  }

  /** When the clock moves, nothing is on its way. */
  lemma AskedLater(w: World, k: Key, o: Option<Event>, now: nat)
    requires Asked(w, k, o) && w.now <= now && forall t :: t in w.q ==> now <= t
    ensures Asked(w.(now := now), k, o) && (o.Some? ==> now == w.now)
  {}

  lemma BornApplies(q: Queue<Event>, now: nat, key: Key, g: nat, full: nat, k: Key)
    ensures forall u, i, f: Event :: Applies(f, k) ==>
      (At(q, u, i, f) <==> At(BornQueue(q, now, key, g, full, 0), u, i, f))
  {
    AppendAt(q, now + full + 1, Remove(key, g));
    hide Append;
    hide At;
  }

  /** The application on its way has run. */
  lemma AskedRan(w: World, m: Measure, k: Key)
    requires Inv(w) && HasFront(w) && Applies(Front(w), k) && Asked(w, k, Some(Front(w))) && m.period == 0
    requires Suits(w, m)
    ensures Asked(Turned(w, m), k, None)
  {
    AppliedKeeps(w, Front(w), m);
    var h := Applied(w, Front(w), m);
    BornApplies(w.q, w.now, k, w.counter + 1, m.full, k);
    hide Inv;
    hide BornQueue;
    hide DropFront;
    hide At;
    AskedDropped(w, k, h.q);
    AskedSame(w.(q := DropFront(h.q, w.now)), Turned(w, m), k, None);
  }

  lemma AskedSame(w: World, h: World, k: Key, o: Option<Event>)
    requires Asked(w, k, o) && h.q == w.q && h.now == w.now
    ensures Asked(h, k, o)
  {}

  /** The aura of key `k` never ticks. */
  ghost predicate NeverTicks(w: World, k: Key) {
    forall g :: g in w.life && w.life[g].key == k ==> w.life[g].period == 0
  }

  lemma NeverTicksTurned(w: World, m: Measure, k: Key)
    requires Inv(w) && HasFront(w) && Suits(w, m)
    requires NeverTicks(w, k) && (Front(w).Apply? && Front(w).key == k ==> m.period == 0)
    ensures NeverTicks(Turned(w, m), k)
  {
    hide Fits;
    if !Front(w).Apply? { FrontKnown(w); } else { AppliedKeeps(w, Front(w), m); }
    hide Inv;
    hide Requeued;
    hide DropFront;
    hide BornQueue;
  }

  /** So its events are applications and removals. */
  lemma NoTickInFront(w: World, k: Key)
    requires Inv(w) && HasFront(w) && NeverTicks(w, k) && Front(w).key == k
    ensures !Front(w).Tick?
  {
    if Front(w).Tick? { TickKnown(w); }
  }

  lemma TickKnown(w: World)
    requires Inv(w) && HasFront(w) && Front(w).Tick?
    ensures Front(w).guid in w.life && w.life[Front(w).guid].key == Front(w).key && w.life[Front(w).guid].period >= 1
  {
    assert At(w.q, w.now, 0, Front(w));
  }

  /** An aura that fades and was never refreshed has its removal waiting for its time. */
  lemma RemovalWaits(w: World, k: Key)
    requires Inv(w) && k in w.auras
    ensures var g := w.auras[k].guid;
      g in w.life && (w.life[g].full != 0 && !w.life[g].refreshed ==>
        var t := w.life[g].start + w.life[g].full + 1;
        w.auras[k].fade == t && w.now <= t && Pending(w.q, t, Remove(k, g)))
  {
    AurasKnown(w);
    var g := w.auras[k].guid;
    assert Live(w, g) && Waits(w, g);
    if w.life[g].full != 0 && !w.life[g].refreshed { PendingLater(w.now, w.q, w.life[g].due, RemoveOf(w, g)); }
  }

  lemma PendingLater(now: nat, q: Queue<Event>, t: nat, e: Event)
    requires Timely(now, q) && Pending(q, t, e)
    ensures now <= t
  {}

  /** What is in front is not behind anything. */
  lemma NotBehindFront(w: World, k: Key, f: Event)
    requires HasFront(w) && Applies(Front(w), k) && Asked(w, k, Some(Front(w)))
    ensures !Before(w.q, w.now, f, Front(w))
  {
    assert At(w.q, w.now, 0, Front(w));
  }

  lemma TurnedNow(w: World, m: Measure)
    requires Inv(w) && HasFront(w) && Suits(w, m)
    ensures Turned(w, m).now == w.now
  {
    if !Front(w).Apply? { FrontKnown(w); } else { AppliedKeeps(w, Front(w), m); }
    hide Inv;
    hide Requeued;
    hide DropFront;
    hide BornQueue;
  }

  /** An application of an aura that is not there makes a new instance. */
  lemma TurnedFresh(w: World, m: Measure)
    requires Inv(w) && HasFront(w) && Front(w).Apply? && Suits(w, m)
    requires Front(w).key !in w.auras
    ensures var h, k := Turned(w, m), Front(w).key;
      && k in h.auras && h.auras[k].guid in h.life && !h.life[h.auras[k].guid].refreshed
        && h.life[h.auras[k].guid].full == m.full
      && h.life[h.auras[k].guid].start == w.now && h.auras[k].stacks == Front(w).stacks
  {
    AppliedKeeps(w, Front(w), m);
    hide Inv;
    hide BornQueue;
    hide DropFront;
  }

  /** A removal that is due. */
  lemma TurnedGone(w: World, m: Measure)
    requires Inv(w) && HasFront(w) && Front(w).Remove? && Front(w).key in w.auras
    requires w.auras[Front(w).key].guid == Front(w).guid
    requires w.auras[Front(w).key].fade <= w.now
    ensures Front(w).key !in Turned(w, m).auras
  {
    FrontKnown(w);
    hide Inv;
    hide DropFront;
  }

  /** A removal of another instance. */
  lemma TurnedStale(w: World, m: Measure)
    requires Inv(w) && HasFront(w) && Front(w).Remove?
    requires (Front(w).key !in w.auras || w.auras[Front(w).key].guid != Front(w).guid)
    ensures Turned(w, m).auras == w.auras && Turned(w, m).life == w.life
  {
    FrontKnown(w);
    hide Inv;
    hide DropFront;
  }

  /** An application of an aura that is there adds its stacks. */
  lemma TurnedRefreshed(w: World, m: Measure)
    requires Inv(w) && HasFront(w) && Front(w).Apply? && Suits(w, m)
    requires Front(w).key in w.auras
    ensures var h, k := Turned(w, m), Front(w).key;
      k in h.auras && h.auras[k].stacks == w.auras[k].stacks + Front(w).stacks
  {
    AppliedKeeps(w, Front(w), m);
    AurasKnown(w);
    hide Inv;
    hide DropFront;
  }

  /** A removal that comes too early is put off. */
  lemma TurnedDelayed(w: World, m: Measure)
    requires Inv(w) && HasFront(w) && Front(w).Remove? && Front(w).key in w.auras
    requires w.auras[Front(w).key].guid == Front(w).guid
    requires w.auras[Front(w).key].fade > w.now
    ensures Turned(w, m).auras == w.auras
  {
    FrontKnown(w);
    hide Inv;
    hide Requeued;
  }
}
