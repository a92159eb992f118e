/**
  Casting spells: when a cast begins, what its channel does meanwhile, and when it is completed. What the
  scripts called on the way do is arbitrary.
 */
module Casting {
  import opened Basics
  import opened Queues

  datatype Spell = Spell(id: nat, channel: bool, ticks: nat, cooldown: nat)

  /** An event is the same object before and after its turn to begin; `recovery` is set when a cast begins. */
  datatype Event =
    | Cast(id: nat, spell: Spell, post: bool, recovery: nat)
    | Channel(parent: nat, spell: Spell, tick: nat, post: bool)
    | Other

  datatype Stage = Waiting | Underway | Finishing | Over

  /** The history of one cast. */
  datatype Life = Life(
    spell: Spell,
    stage: Stage,
    begun: bool,
    start: nat,
    time: nat,
    recovery: nat,
    stopped: bool,
    posts: nat,
    ticks: seq<nat>)

  datatype World = World(now: nat, q: Queue<Event>, casting: Option<nat>, lives: seq<Life>)

  /** The event in hand, whose turn it is, if it is still wanted. */
  datatype Held = Nobody | TheCast(id: nat) | TheTick(parent: nat, tick: nat)

  /** `GetCastTime() / ticks * i - 1`, as a delay. */
  function Offset(time: nat, ticks: nat, i: nat): int
    requires ticks > 0
  {
    (time as real / ticks as real * i as real - 1.0).Floor
  }

  lemma TimesUp(x: real, y: real, c: real)
    requires x <= y && c >= 0.0
    ensures x * c <= y * c && c * x <= c * y
  {
    assert (y - x) * c >= 0.0;
  }

  lemma Share(time: nat, ticks: nat)
    requires 0 < ticks <= time
    ensures var q := time as real / ticks as real; q >= 1.0 && q * ticks as real == time as real
  {
    var q, n := time as real / ticks as real, ticks as real;
    assert q * n == time as real;
    if q < 1.0 {
      var gap := 1.0 - q;
      assert gap * n > 0.0;
      assert gap * n == n - q * n;
    }
  }

  /** The ticks are at least an instant apart, and all of them before the end. */
  lemma OffsetIn(time: nat, ticks: nat, i: nat)
    requires 0 < ticks <= time && 1 <= i <= ticks
    ensures 0 <= Offset(time, ticks, i) < time
    ensures i < ticks ==> Offset(time, ticks, i) < Offset(time, ticks, i + 1)
  {
    Share(time, ticks);
    var q := time as real / ticks as real;
    TimesUp(1.0, q, i as real);
    TimesUp(i as real, ticks as real, q);
    assert q * (i + 1) as real == q * i as real + q;
  }

  lemma {:induction false} OffsetUp(time: nat, ticks: nat, i: nat, j: nat)
    requires 0 < ticks <= time && 1 <= i < j <= ticks
    ensures Offset(time, ticks, i) < Offset(time, ticks, j)
  {
    OffsetIn(time, ticks, j - 1);
    if i < j - 1 { OffsetUp(time, ticks, i, j - 1); }
  }

  function Times(x: real, y: real): real { x * y }

  lemma TimesSwap(x: real, y: real, z: real)
    ensures Times(Times(x, y), z) == Times(Times(x, z), y)
  {}

  lemma TimesOrder(x: real, y: real, c: real)
    requires c > 0.0
    ensures x <= y ==> Times(x, c) <= Times(y, c)
    ensures x < y ==> Times(x, c) < Times(y, c)
  {
    var gap := y - x;
    assert Times(y, c) - Times(x, c) == gap * c;
    assert gap > 0.0 ==> gap * c > 0.0;
  }

  lemma TimesInts(a: int, b: int)
    ensures Times(a as real, b as real) == (a * b) as real
  {}

  lemma ShareBetween(q: real, n: real, t: real, i: real, lo: real, hi: real)
    requires Times(q, n) == t && n > 0.0 && lo <= Times(q, i) < hi
    ensures Times(lo, n) <= Times(t, i) < Times(hi, n)
  {
    TimesSwap(q, i, n);
    TimesOrder(lo, Times(q, i), n);
    TimesOrder(Times(q, i), hi, n);
    hide Times;
  }

  lemma OffsetBetween(time: nat, ticks: nat, i: nat)
    requires 0 < ticks <= time
    ensures var q, d := time as real / ticks as real, Offset(time, ticks, i);
      Times(q, ticks as real) == time as real && (d + 1) as real <= Times(q, i as real) < (d + 2) as real
  {
    Share(time, ticks);
  }

  /** The ticks are as far apart as whole instants allow, `ticks` of them to the whole time, each one instant early; the
      last is one instant before the end. */
  lemma OffsetIs(time: nat, ticks: nat, i: nat)
    requires 0 < ticks <= time && 1 <= i <= ticks
    ensures var d := Offset(time, ticks, i); (d + 1) * ticks <= time * i < (d + 2) * ticks
    ensures i == ticks ==> Offset(time, ticks, i) == time - 1
  {
    hide Times;
    var q, d := time as real / ticks as real, Offset(time, ticks, i);
    OffsetBetween(time, ticks, i);
    hide Offset;
    ShareBetween(q, ticks as real, time as real, i as real, (d + 1) as real, (d + 2) as real);
    TimesInts(d + 1, ticks);
    TimesInts(d + 2, ticks);
    TimesInts(time, i);
    if i == ticks { Between(d, time, ticks); }
  }

  lemma Between(d: int, time: nat, ticks: nat)
    requires ticks > 0 && (d + 1) * ticks <= time * ticks < (d + 2) * ticks
    ensures d == time - 1
  {
    IntOrder(time + 1, d + 1, ticks);
    IntOrder(d + 2, time, ticks);
    assert (time + 1) * ticks == time * ticks + ticks;
  }

  lemma IntOrder(x: int, y: int, c: nat)
    ensures x <= y ==> x * c <= y * c
  {
    if x <= y { assert (y - x) * c >= 0; }
  }

  function Finish(l: Life): nat { l.start + l.time }

  predicate Ticks(l: Life) { l.spell.channel && 0 < l.spell.ticks <= l.time }

  /** When tick `i` is due. */
  function TickAt(l: Life, i: nat): int
    requires Ticks(l)
  {
    l.start + Offset(l.time, l.spell.ticks, i)
  }

  // ---------------------------------------------------------------------------------- the invariant

  predicate SameOne(e: Event, f: Event) {
    (e.Cast? && f.Cast? && e.id == f.id) || (e.Channel? && f.Channel? && e.parent == f.parent && e.tick == f.tick)
  }

  ghost predicate Unique(q: Queue<Event>) {
    forall t, i, e, u, j, f :: At(q, t, i, e) && At(q, u, j, f) && SameOne(e, f) ==> t == u && i == j
  }

  /** What a queued event says of its cast: a channel event never outlives it. */
  ghost predicate Fits(now: nat, lives: seq<Life>, t: nat, e: Event) {
    match e
    case Cast(id, spell, post, recovery) =>
      && id < |lives| && lives[id].spell == spell
      && if post then lives[id].stage.Underway? && t == Finish(lives[id]) && recovery == lives[id].recovery
         else lives[id].stage.Waiting? && t == now && recovery == 0
    case Channel(parent, spell, tick, post) =>
      && parent < |lives| && lives[parent].spell == spell && lives[parent].stage.Underway? && Ticks(lives[parent])
      && |lives[parent].ticks| < tick <= spell.ticks && t == TickAt(lives[parent], tick) && (post ==> t == now)
    case Other => true
  }

  ghost predicate AllFit(w: World, held: Held) {
    forall t, i, e :: At(w.q, t, i, e) ==> Fits(w.now, w.lives, t, e) && !IsHeld(e, held)
  }

  predicate IsHeld(e: Event, held: Held) {
    (e.Cast? && held == TheCast(e.id)) || (e.Channel? && held == TheTick(e.parent, e.tick))
  }

  /** A cast that is waiting, or underway, has its event in the queue. */
  ghost predicate Queued(w: World, held: Held, id: nat)
    requires id < |w.lives|
  {
    var l := w.lives[id];
    held != TheCast(id) ==>
      && (l.stage.Waiting? ==> Pending(w.q, w.now, Cast(id, l.spell, false, 0)))
      && (l.stage.Underway? ==> Pending(w.q, Finish(l), Cast(id, l.spell, true, l.recovery)))
  }

  /** Of the ticks of an uninterrupted channel, those that have not run are in the queue. */
  ghost predicate Ticking(w: World, held: Held, id: nat)
    requires id < |w.lives|
  {
    var l := w.lives[id];
    l.stage.Underway? && !l.stopped && Ticks(l) ==>
      |l.ticks| <= l.spell.ticks && forall i :: |l.ticks| < i <= l.spell.ticks && held != TheTick(id, i) ==>
        TickWaits(w, id, i)
  }

  ghost predicate TickWaits(w: World, id: nat, i: nat)
    requires id < |w.lives| && Ticks(w.lives[id])
  {
    var l := w.lives[id];
    var t := TickAt(l, i);
    t >= 0 && (Pending(w.q, t, Channel(id, l.spell, i, false))
               || (t == w.now && Pending(w.q, t, Channel(id, l.spell, i, true))))
  }

  /** A cast that waits for its turn. */
  function NewLife(spell: Spell): Life { Life(spell, Waiting, false, 0, 0, 0, false, 0, []) }

  ghost predicate OnTime(l: Life) {
    if Ticks(l) then forall i :: 0 <= i < |l.ticks| ==> l.ticks[i] == TickAt(l, i + 1) else l.ticks == []
  }

  lemma OnTimeSame(l: Life, k: Life)
    requires OnTime(l) && k.spell == l.spell && k.start == l.start && k.time == l.time && k.ticks == l.ticks
    ensures OnTime(k)
  {
    hide Offset;
  }

  /** The ticks that have run were on time; a cast is completed once at most, not if stopped, and after all of its
      ticks. */
  ghost predicate Lawful(l: Life) {
    && (l.begun && l.spell.channel ==> Ticks(l))
    && OnTime(l)
    && (l.posts == if l.stage.Finishing? || (l.stage.Over? && l.begun && !l.stopped) then 1 else 0)
    && (l.posts == 1 && l.spell.channel ==> |l.ticks| == l.spell.ticks)
    && (l.stage.Underway? || l.stage.Finishing? ==> l.begun) && (l.stage.Waiting? ==> l == NewLife(l.spell))
      && (l.stage.Finishing? ==> !l.stopped)
    && (!l.begun ==> l.ticks == [])
  }

  /** The current cast is underway; every other one that is underway has been stopped. */
  ghost predicate Current(w: World, held: Held) {
    && (w.casting.Some? ==>
          var c := w.casting.value;
          c < |w.lives|
            && ((w.lives[c].stage.Underway? && !w.lives[c].stopped)
                || (w.lives[c].stage.Finishing? && held == TheCast(c))))
    && (forall id :: 0 <= id < |w.lives| && w.lives[id].stage.Underway? && !w.lives[id].stopped ==>
          w.casting == Some(id))
    && (forall id :: 0 <= id < |w.lives| && w.lives[id].stage.Finishing? ==> held == TheCast(id))
  }

  ghost predicate HeldFits(w: World, held: Held) {
    match held
    case Nobody => true
    case TheCast(id) =>
      id < |w.lives|
        && (w.lives[id].stage.Waiting? || (w.lives[id].stage.Finishing? && (w.casting.Some? ==> w.casting == Some(id))))
    case TheTick(id, i) =>
      id < |w.lives| && w.lives[id].stage.Underway? && Ticks(w.lives[id])
      && |w.lives[id].ticks| < i <= w.lives[id].spell.ticks && TickAt(w.lives[id], i) == w.now
  }

  ghost predicate Inv(w: World, held: Held) {
    && Timely(w.now, w.q) && Unique(w.q) && AllFit(w, held) && HeldFits(w, held) && Current(w, held)
    && (forall id :: 0 <= id < |w.lives| ==> Queued(w, held, id) && Ticking(w, held, id) && Lawful(w.lives[id]))
  }

  // -------------------------------------------------------------------------------- what it all means

  /** No event of a channel outlives its cast, whose completion is still to come. */
  lemma NoOrphans(w: World, t: nat, i: nat, e: Event)
    requires Inv(w, Nobody) && At(w.q, t, i, e) && e.Channel?
    ensures e.parent < |w.lives| && w.lives[e.parent].stage.Underway?
    ensures var l := w.lives[e.parent];
      t < Finish(l) && Pending(w.q, Finish(l), Cast(e.parent, l.spell, true, l.recovery))
  {
    var l := w.lives[e.parent];
    assert Fits(w.now, w.lives, t, e) && Queued(w, Nobody, e.parent);
    OffsetIn(l.time, l.spell.ticks, e.tick);
  }

  /** A cast that began is completed exactly once if it is not stopped, and never if it is. */
  lemma CompletedOnce(w: World, id: nat)
    requires Inv(w, Nobody) && id < |w.lives| && w.lives[id].stage.Over? && w.lives[id].begun
    ensures w.lives[id].posts == if w.lives[id].stopped then 0 else 1
  {}

  /** Tick `i`, counted from 0, is one instant before its share of the time is over, to the whole instant. */
  predicate Evenly(l: Life, i: nat, t: nat) {
    (t - l.start + 1) * l.spell.ticks <= l.time * (i + 1) < (t - l.start + 2) * l.spell.ticks
  }

  /** An uninterrupted channel has run all of its ticks, on time and in order, before it is completed. */
  lemma AllTicksFirst(w: World, id: nat)
    requires Inv(w, Nobody) && id < |w.lives| && w.lives[id].stage.Over? && w.lives[id].begun && !w.lives[id].stopped
    requires w.lives[id].spell.channel
    ensures var l := w.lives[id];
      |l.ticks| == l.spell.ticks
        && (forall i :: 0 <= i < |l.ticks| ==> Ticks(l) && l.start <= l.ticks[i] == TickAt(l, i + 1) < Finish(l))
      && (forall i, j :: 0 <= i < j < |l.ticks| ==> l.ticks[i] < l.ticks[j])
    ensures var l := w.lives[id];
      && (forall i :: 0 <= i < |l.ticks| ==> Evenly(l, i, l.ticks[i]))
      && (|l.ticks| > 0 ==> l.ticks[|l.ticks| - 1] == Finish(l) - 1)
  {
    var l := w.lives[id];
    hide Offset;
    hide Evenly;
    assert Lawful(l);
    hide Inv;
    forall i | 0 <= i < |l.ticks|
      ensures Ticks(l) && l.start <= l.ticks[i] == TickAt(l, i + 1) < Finish(l)
      ensures Evenly(l, i, l.ticks[i]) && (i == |l.ticks| - 1 ==> l.ticks[i] == Finish(l) - 1)
    {
      TickIs(l, i);
    }
    forall i, j | 0 <= i < j < |l.ticks|
      ensures l.ticks[i] < l.ticks[j]
    {
      OffsetUp(l.time, l.spell.ticks, i + 1, j + 1);
    }
  }

  lemma TickIs(l: Life, i: nat)
    requires Ticks(l) && i < l.spell.ticks
    ensures l.start <= TickAt(l, i + 1) < Finish(l) && Evenly(l, i, TickAt(l, i + 1))
    ensures i == l.spell.ticks - 1 ==> TickAt(l, i + 1) == Finish(l) - 1
  {
    hide Offset;
    OffsetIs(l.time, l.spell.ticks, i + 1);
    OffsetIn(l.time, l.spell.ticks, i + 1);
  }

  /** Of all casts underway, one at most has not been stopped. */
  lemma OneAtATime(w: World, a: nat, b: nat)
    requires Inv(w, Nobody) && a < |w.lives| && b < |w.lives|
    requires w.lives[a].stage.Underway? && !w.lives[a].stopped && w.lives[b].stage.Underway? && !w.lives[b].stopped
    ensures a == b && w.casting == Some(a)
  {}

  // ---------------------------------------------------------------------------------------- transitions

  ghost predicate NoneLike(q: Queue<Event>, e: Event) { forall t, i, f :: At(q, t, i, f) ==> !SameOne(e, f) }

  lemma AppendUnique(q: Queue<Event>, t: nat, e: Event)
    requires Unique(q) && NoneLike(q, e)
    ensures Unique(Append(q, t, e))
  {
    AppendAt(q, t, e);
    hide Append;
    hide At;
  }

  lemma AppendPending(q: Queue<Event>, t: nat, e: Event)
    ensures forall u, f :: Pending(q, u, f) ==> Pending(Append(q, t, e), u, f)
    ensures Pending(Append(q, t, e), t, e)
  {
    AppendAt(q, t, e);
    hide Append;
    hide At;
  }

  /** What waits for its turn goes on waiting when the queue grows. */
  lemma MoreWaits(w: World, h: World, held: Held, id: nat)
    requires id < |w.lives| && id < |h.lives| && h.lives[id] == w.lives[id] && h.now == w.now
    requires Queued(w, held, id) && Ticking(w, held, id)
    requires forall u, f :: Pending(w.q, u, f) ==> Pending(h.q, u, f)
    ensures Queued(h, held, id) && Ticking(h, held, id)
  {
    hide Pending;
    hide Offset;
    var l := w.lives[id];
    if l.stage.Underway? && !l.stopped && Ticks(l) {
      forall i | |l.ticks| < i <= l.spell.ticks && held != TheTick(id, i)
        ensures TickWaits(h, id, i)
      {
        assert TickWaits(w, id, i);
      }
    }
  }

  /** Events of casts that are as they were, and one more. */
  lemma AppendFits(w: World, held: Held, lives: seq<Life>, t: nat, e: Event)
    requires AllFit(w, held) && w.lives <= lives && Fits(w.now, lives, t, e) && !IsHeld(e, held)
    ensures AllFit(w.(q := Append(w.q, t, e), lives := lives), held)
  {
    AppendAt(w.q, t, e);
    hide Append;
    hide At;
    hide Offset;
  }

  /** An event of some other kind joins the queue. */
  lemma OtherKeeps(w: World, held: Held, t: nat)
    requires Inv(w, held) && w.now <= t
    ensures Inv(w.(q := Append(w.q, t, Other)), held)
  {
    var h := w.(q := Append(w.q, t, Other));
    AppendTimely(w.now, w.q, t, Other);
    AppendUnique(w.q, t, Other);
    AppendFits(w, held, w.lives, t, Other);
    AppendPending(w.q, t, Other);
    hide Append;
    hide AllFit;
    hide Unique;
    hide Timely;
    hide Lawful;
    hide Queued;
    hide Ticking;
    forall id | 0 <= id < |h.lives| ensures Queued(h, held, id) && Ticking(h, held, id) { MoreWaits(w, h, held, id); }
  }

  function Asked(w: World, spell: Spell): World {
    w.(q := Append(w.q, w.now, Cast(|w.lives|, spell, false, 0)), lives := w.lives + [NewLife(spell)])
  }

  /** A cast is asked for: it waits for its turn. */
  lemma AskedKeeps(w: World, held: Held, spell: Spell)
    requires Inv(w, held)
    ensures Inv(Asked(w, spell), held)
  {
    var h, e := Asked(w, spell), Cast(|w.lives|, spell, false, 0);
    assert NoneLike(w.q, e);
    AppendTimely(w.now, w.q, w.now, e);
    AppendUnique(w.q, w.now, e);
    AppendFits(w, held, h.lives, w.now, e);
    AppendPending(w.q, w.now, e);
    hide Append;
    hide AllFit;
    hide Unique;
    hide Timely;
    hide NoneLike;
    hide Pending;
    hide Offset;
    assert h.lives[|w.lives|] == NewLife(spell);
    forall id | 0 <= id < |h.lives| ensures Queued(h, held, id) && Ticking(h, held, id) && Lawful(h.lives[id]) {
      if id < |w.lives| { MoreWaits(w, h, held, id); }
    }
    assert Current(h, held);
    assert HeldFits(h, held);
  }

  function Stopped(w: World): World {
    match w.casting
    case None => w
    case Some(c) =>
      if c < |w.lives| && w.lives[c].stage.Underway?
        then w.(casting := None, lives := w.lives[c := w.lives[c].(stopped := true)])
      else w.(casting := None)
  }

  /** The current cast is stopped: its events stay in the queue, but it is not current any more. */
  lemma StoppedKeeps(w: World, held: Held)
    requires Inv(w, held)
    ensures Inv(Stopped(w), held)
  {
    var h := Stopped(w);
    hide At;
    hide Pending;
    hide Offset;
    hide Timely;
    hide Unique;
    forall id | 0 <= id < |w.lives| ensures h.lives[id] == w.lives[id] || StopsOne(w.lives[id], h.lives[id]) {}
    StoppedFits(w, h, held);
    assert HeldFits(h, held);
    assert Current(h, held);
    hide AllFit;
    hide Current;
    hide HeldFits;
    forall id | 0 <= id < |h.lives| ensures Queued(h, held, id) && Ticking(h, held, id) && Lawful(h.lives[id]) {
      assert Queued(w, held, id) && Ticking(w, held, id) && Lawful(w.lives[id]);
      if h.lives[id] == w.lives[id] { SameWaits(w, h, held, id); } else { StoppedLawful(w.lives[id], h.lives[id]); }
    }
  }

  lemma StoppedLawful(l: Life, k: Life)
    requires Lawful(l) && StopsOne(l, k)
    ensures Lawful(k)
  {
    OnTimeSame(l, k);
    hide OnTime;
  }

  predicate StopsOne(l: Life, k: Life) { l.stage.Underway? && k == l.(stopped := true) }

  lemma StoppedFits(w: World, h: World, held: Held)
    requires AllFit(w, held) && h.q == w.q && h.now == w.now && |h.lives| == |w.lives|
    requires forall id :: 0 <= id < |w.lives| ==> h.lives[id] == w.lives[id] || StopsOne(w.lives[id], h.lives[id])
    ensures AllFit(h, held)
  {
    hide At;
    hide Offset;
    forall t, i, e | At(h.q, t, i, e) ensures Fits(h.now, h.lives, t, e) && !IsHeld(e, held) {
      assert Fits(w.now, w.lives, t, e);
    }
  }

  lemma SameWaits(w: World, h: World, held: Held, id: nat)
    requires id < |w.lives| && id < |h.lives| && h.lives[id] == w.lives[id] && h.now == w.now && h.q == w.q
    requires Queued(w, held, id) && Ticking(w, held, id)
    ensures Queued(h, held, id) && Ticking(h, held, id)
  {
    MoreWaits(w, h, held, id);
  }

  predicate About(e: Event, id: nat) { (e.Cast? && e.id == id) || (e.Channel? && e.parent == id) }

  predicate HasFront(w: World) { w.now in w.q && w.q[w.now] != [] }

  function Front(w: World): Event
    requires HasFront(w)
  {
    w.q[w.now][0]
  }

  /** The event at the front of the current instant is taken off. */
  function Took(w: World): World
    requires HasFront(w)
  {
    w.(q := DropFront(w.q, w.now))
  }

  lemma TookQueue(w: World)
    requires Timely(w.now, w.q) && Unique(w.q) && HasFront(w)
    ensures var r, e := Took(w), Front(w);
      && Timely(w.now, r.q) && Unique(r.q) && (!e.Other? ==> NoneLike(r.q, e)) && At(w.q, w.now, 0, e)
      && (forall u, f :: Pending(w.q, u, f) && f != e ==> Pending(r.q, u, f))
  {
    var r, e := Took(w), Front(w);
    DropAt(w.q, w.now);
    assert Timely(w.now, r.q);
    hide Timely;
    assert At(w.q, w.now, 0, e);
    forall u, f | Pending(w.q, u, f) && f != e ensures Pending(r.q, u, f) { KeptPending(w.q, r.q, w.now, u, f); }
    hide DropFront;
    TookUnique(w.q, r.q, w.now, e);
  }

  lemma TookUnique(q: Queue<Event>, r: Queue<Event>, t: nat, e: Event)
    requires Unique(q) && At(q, t, 0, e)
    requires forall u, i, f :: At(r, u, i, f) ==> At(q, u, if u == t then i + 1 else i, f) && i >= 0
    ensures Unique(r) && (!e.Other? ==> NoneLike(r, e))
  {
    forall u, i, f, v, j, g | At(r, u, i, f) && At(r, v, j, g) && SameOne(f, g) ensures u == v && i == j {
      assert At(q, u, if u == t then i + 1 else i, f) && At(q, v, if v == t then j + 1 else j, g);
    }
    hide Unique;
    hide At;
    forall u, i, f | At(r, u, i, f) && !e.Other? ensures !SameOne(e, f) {
      if SameOne(e, f) { TwoPlaces(q, t, e, u, if u == t then i + 1 else i, f); }
    }
  }

  lemma TwoPlaces(q: Queue<Event>, t: nat, e: Event, u: nat, i: int, f: Event)
    requires Unique(q) && At(q, t, 0, e) && At(q, u, i, f) && SameOne(e, f)
    ensures u == t && i == 0
  {
    hide At;
  }

  /** The events left fit, whatever is in hand instead of the front event. */
  lemma TookFits(w: World, held: Held)
    requires AllFit(w, Nobody) && HasFront(w) && NoneLike(Took(w).q, Front(w))
    requires held == Nobody || (Front(w).Cast? && held == TheCast(Front(w).id))
             || (Front(w).Channel? && held == TheTick(Front(w).parent, Front(w).tick))
    ensures AllFit(Took(w), held)
  {
    var r, e := Took(w), Front(w);
    DropAt(w.q, w.now);
    hide DropFront;
    hide Fits;
    forall t, i, f | At(r.q, t, i, f) ensures Fits(r.now, r.lives, t, f) && !IsHeld(f, held) {
      assert At(w.q, t, if t == w.now then i + 1 else i, f);
      assert !SameOne(e, f);
    }
  }

  /** Casts that the front event is not about wait as before. */
  lemma TookWaits(w: World, r: World, held: Held, id: nat)
    requires id < |w.lives| && id < |r.lives| && r.lives[id] == w.lives[id] && r.now == w.now && HasFront(w)
    requires !About(Front(w), id)
    requires Queued(w, Nobody, id) && Ticking(w, Nobody, id)
    requires forall u, f :: Pending(w.q, u, f) && f != Front(w) ==> Pending(r.q, u, f)
    ensures Queued(r, held, id) && Ticking(r, held, id)
  {
    hide Pending;
    hide Offset;
    var l := w.lives[id];
    if l.stage.Underway? && !l.stopped && Ticks(l) {
      forall i | |l.ticks| < i <= l.spell.ticks ensures TickWaits(r, id, i) { assert TickWaits(w, id, i); }
    }
  }

  lemma TookOther(w: World)
    requires Inv(w, Nobody) && HasFront(w) && Front(w).Other?
    ensures Inv(Took(w), Nobody)
  {
    var r := Took(w);
    TookQueue(w);
    DropAt(w.q, w.now);
    hide DropFront;
    hide Fits;
    hide Lawful;
    hide Current;
    hide Queued;
    hide Ticking;
    assert AllFit(r, Nobody);
    forall id | 0 <= id < |r.lives|
      ensures Queued(r, Nobody, id) && Ticking(r, Nobody, id)
    {
      TookWaits(w, r, Nobody, id);
    }
  }

  /** A cast whose turn has come is in hand. */
  lemma TookCast(w: World)
    requires Inv(w, Nobody) && HasFront(w) && Front(w).Cast? && !Front(w).post
    ensures Inv(Took(w), TheCast(Front(w).id)) && Front(w).id < |w.lives|
    ensures w.lives[Front(w).id] == NewLife(Front(w).spell)
  {
    var r, e := Took(w), Front(w);
    TookQueue(w);
    TookFits(w, TheCast(e.id));
    assert Fits(w.now, w.lives, w.now, e);
    assert Lawful(w.lives[e.id]);
    hide DropFront;
    hide AllFit;
    hide Unique;
    hide Timely;
    hide NoneLike;
    hide Lawful;
    hide Queued;
    hide Ticking;
    forall id | 0 <= id < |r.lives| ensures Queued(r, TheCast(e.id), id) && Ticking(r, TheCast(e.id), id) {
      if id != e.id { TookWaits(w, r, TheCast(e.id), id); } else { WaitingWaits(r, id); }
    }
  }

  lemma WaitingWaits(r: World, id: nat)
    requires id < |r.lives| && !r.lives[id].stage.Underway?
    ensures Queued(r, TheCast(id), id) && Ticking(r, TheCast(id), id)
  {}

  /** When a cast is due, nothing of its channel is left in the queue. */
  lemma NoneLeft(w: World, id: nat)
    requires AllFit(w, Nobody) && Timely(w.now, w.q) && id < |w.lives| && w.lives[id].stage.Underway?
    requires Finish(w.lives[id]) == w.now
    ensures forall t, i, e :: At(w.q, t, i, e) ==> !(e.Channel? && e.parent == id)
  {
    forall t, i, e | At(w.q, t, i, e) && e.Channel? && e.parent == id ensures false {
      assert Fits(w.now, w.lives, t, e);
      OffsetIn(w.lives[id].time, w.lives[id].spell.ticks, e.tick);
    }
  }

  /** ... and if it was not stopped, all of it has run. */
  lemma AllRun(w: World, id: nat)
    requires Timely(w.now, w.q) && id < |w.lives| && w.lives[id].stage.Underway? && Finish(w.lives[id]) == w.now
    requires Ticking(w, Nobody, id) && !w.lives[id].stopped && Ticks(w.lives[id])
    ensures |w.lives[id].ticks| == w.lives[id].spell.ticks
  {
    var l := w.lives[id];
    if |l.ticks| < l.spell.ticks {
      var i := |l.ticks| + 1;
      assert TickWaits(w, id, i);
      OffsetIn(l.time, l.spell.ticks, i);
    }
  }

  function WithLife(w: World, id: nat, l: Life): World
    requires id < |w.lives|
  {
    w.(lives := w.lives[id := l])
  }

  /** Nothing queued is about a cast whose history changes. */
  lemma ChangedFits(w: World, h: World, held: Held, id: nat)
    requires AllFit(w, held) && h.q == w.q && h.now == w.now && |h.lives| == |w.lives| && id < |w.lives|
    requires forall k :: 0 <= k < |w.lives| && k != id ==> h.lives[k] == w.lives[k]
    requires forall t, i, e :: At(w.q, t, i, e) ==> !About(e, id)
    ensures AllFit(h, held)
  {
    hide At;
    hide Offset;
    forall t, i, e | At(h.q, t, i, e)
      ensures Fits(h.now, h.lives, t, e) && !IsHeld(e, held)
    {
      assert Fits(w.now, w.lives, t, e);
    }
  }

  lemma NotAbout(w: World, id: nat, r: World)
    requires HasFront(w) && Front(w).Cast? && Front(w).id == id && r == Took(w) && NoneLike(r.q, Front(w))
    requires forall t, i, e :: At(w.q, t, i, e) ==> !(e.Channel? && e.parent == id)
    ensures forall t, i, e :: At(r.q, t, i, e) ==> !About(e, id)
  {
    DropAt(w.q, w.now);
    hide DropFront;
    hide At;
    forall t, i, e | At(r.q, t, i, e) ensures !About(e, id) { assert !SameOne(Front(w), e); }
  }

  function Dropped(w: World, id: nat): World
    requires HasFront(w) && id < |w.lives|
  {
    WithLife(Took(w), id, w.lives[id].(stage := Over))
  }

  function Completing(w: World, id: nat): World
    requires HasFront(w) && id < |w.lives|
  {
    WithLife(Took(w), id, w.lives[id].(stage := Finishing, posts := w.lives[id].posts + 1))
  }

  /** A cast is due: if it is current it is completed, and otherwise forgotten. */
  lemma TookDue(w: World)
    requires Inv(w, Nobody) && HasFront(w) && Front(w).Cast? && Front(w).post
    ensures var id := Front(w).id;
      && id < |w.lives| && w.lives[id].stage.Underway?
      && if w.casting == Some(id) then Inv(Completing(w, id), TheCast(id)) else Inv(Dropped(w, id), Nobody)
  {
    var r, e := Took(w), Front(w);
    var id := e.id;
    TookQueue(w);
    assert Fits(w.now, w.lives, w.now, e);
    assert Lawful(w.lives[id]) && Ticking(w, Nobody, id);
    NoneLeft(w, id);
    TookFits(w, Nobody);
    NotAbout(w, id, r);
    var held := if w.casting == Some(id) then TheCast(id) else Nobody;
    var h := if w.casting == Some(id) then Completing(w, id) else Dropped(w, id);
    ChangedFits(r, h, Nobody, id);
    DueLawful(w, id);
    HeldToo(h, id);
    hide DropFront;
    hide AllFit;
    hide Unique;
    hide Timely;
    hide NoneLike;
    hide Lawful;
    hide Queued;
    hide Ticking;
    forall k | 0 <= k < |h.lives| ensures Queued(h, held, k) && Ticking(h, held, k) && Lawful(h.lives[k]) {
      if k != id { TookWaits(w, h, held, k); } else { NotWaiting(h, held, id); }
    }
  }

  lemma NotWaiting(h: World, held: Held, id: nat)
    requires id < |h.lives| && (h.lives[id].stage.Over? || h.lives[id].stage.Finishing?)
    ensures Queued(h, held, id) && Ticking(h, held, id)
  {}

  lemma HeldToo(h: World, id: nat)
    requires AllFit(h, Nobody) && forall t, i, e :: At(h.q, t, i, e) ==> !About(e, id)
    ensures AllFit(h, TheCast(id))
  {
    hide At;
    hide Fits;
  }

  lemma DueLawful(w: World, id: nat)
    requires Timely(w.now, w.q) && id < |w.lives| && w.lives[id].stage.Underway? && Finish(w.lives[id]) == w.now
    requires Lawful(w.lives[id]) && Ticking(w, Nobody, id) && Current(w, Nobody)
    ensures if w.casting == Some(id) then Lawful(w.lives[id].(stage := Finishing, posts := w.lives[id].posts + 1))
      else Lawful(w.lives[id].(stage := Over))
  {
    hide OnTime;
    var l := w.lives[id];
    if w.casting == Some(id) && l.spell.channel { AllRun(w, id); }
    OnTimeSame(l, l.(stage := Finishing, posts := l.posts + 1));
    OnTimeSame(l, l.(stage := Over));
  }

  /** A tick whose turn has come is in hand, if its cast is still the current one. */
  lemma TookTick(w: World)
    requires Inv(w, Nobody) && HasFront(w) && Front(w).Channel? && !Front(w).post
    ensures var e := Front(w);
      && e.parent < |w.lives| && Inv(Took(w), if w.casting == Some(e.parent) then TheTick(e.parent, e.tick) else Nobody)
  {
    var r, e := Took(w), Front(w);
    var held := if w.casting == Some(e.parent) then TheTick(e.parent, e.tick) else Nobody;
    TookQueue(w);
    assert Fits(w.now, w.lives, w.now, e);
    TookFits(w, held);
    TookOthers(w, held);
    hide DropFront;
    hide AllFit;
    hide Unique;
    hide Timely;
    hide NoneLike;
    hide Lawful;
    hide Queued;
    hide Ticking;
  }

  /** Without a channel event, everything waits as before, except what is in hand or belongs to a cast that was
      stopped. */
  lemma TookOthers(w: World, held: Held)
    requires Inv(w, Nobody) && HasFront(w) && Front(w).Channel? && Front(w).parent < |w.lives|
    requires held == TheTick(Front(w).parent, Front(w).tick) || (held == Nobody && w.casting != Some(Front(w).parent))
    requires forall u, f :: Pending(w.q, u, f) && f != Front(w) ==> Pending(Took(w).q, u, f)
    ensures forall id :: 0 <= id < |w.lives| ==> Queued(Took(w), held, id) && Ticking(Took(w), held, id)
  {
    var r, e := Took(w), Front(w);
    hide AllFit;
    hide Lawful;
    hide Unique;
    hide Timely;
    hide DropFront;
    hide Offset;
    hide Pending;
    forall id | 0 <= id < |w.lives| ensures Queued(r, held, id) && Ticking(r, held, id) {
      assert Queued(w, Nobody, id) && Ticking(w, Nobody, id);
      var l := w.lives[id];
      if l.stage.Underway? && !l.stopped && Ticks(l) {
        forall i | |l.ticks| < i <= l.spell.ticks && held != TheTick(id, i)
          ensures TickWaits(r, id, i)
        {
          assert TickWaits(w, id, i);
        }
      }
    }
  }

  /** The ticks of a channel run in turn. */
  lemma NextInTurn(w: World, id: nat, i: nat)
    requires Timely(w.now, w.q) && id < |w.lives| && Ticking(w, Nobody, id) && w.lives[id].stage.Underway?
    requires !w.lives[id].stopped
    requires Ticks(w.lives[id]) && |w.lives[id].ticks| < i <= w.lives[id].spell.ticks && TickAt(w.lives[id], i) == w.now
    ensures i == |w.lives[id].ticks| + 1
  {
    var l := w.lives[id];
    var k := |l.ticks| + 1;
    if k < i {
      assert TickWaits(w, id, k);
      OffsetUp(l.time, l.spell.ticks, k, i);
    }
  }

  function Ticked(w: World, id: nat): World
    requires HasFront(w) && id < |w.lives|
  {
    WithLife(Took(w), id, w.lives[id].(ticks := w.lives[id].ticks + [w.now]))
  }

  /** A tick of the current cast has run. */
  lemma TookTicked(w: World)
    requires Inv(w, Nobody) && HasFront(w) && Front(w).Channel? && Front(w).post && w.casting == Some(Front(w).parent)
    ensures Front(w).parent < |w.lives| && Inv(Ticked(w, Front(w).parent), Nobody)
  {
    var e, id := Front(w), Front(w).parent;
    var r, h := Took(w), Ticked(w, id);
    TookQueue(w);
    assert Fits(w.now, w.lives, w.now, e);
    assert Ticking(w, Nobody, id) && Lawful(w.lives[id]);
    NextInTurn(w, id, e.tick);
    TookFits(w, Nobody);
    TickedFits(r, h, id);
    TickedLawful(w.lives[id], h.lives[id], w.now);
    TickedWaits(w, h, id);
    hide DropFront;
    hide AllFit;
    hide Unique;
    hide Timely;
    hide NoneLike;
    hide Lawful;
    hide Queued;
    hide Ticking;
    forall k | 0 <= k < |h.lives| ensures Queued(h, Nobody, k) && Ticking(h, Nobody, k) && Lawful(h.lives[k]) {
      if k != id { TookWaits(w, h, Nobody, k); }
    }
  }

  lemma TickedFits(r: World, h: World, id: nat)
    requires AllFit(r, Nobody) && id < |r.lives| && Ticks(r.lives[id])
    requires h == WithLife(r, id, r.lives[id].(ticks := r.lives[id].ticks + [r.now]))
    requires NoneLike(r.q, Channel(id, r.lives[id].spell, |r.lives[id].ticks| + 1, true))
    ensures AllFit(h, Nobody)
  {
    hide At;
    hide Offset;
    forall t, i, e | At(h.q, t, i, e) ensures Fits(h.now, h.lives, t, e) && !IsHeld(e, Nobody) {
      assert Fits(r.now, r.lives, t, e) && !SameOne(Channel(id, r.lives[id].spell, |r.lives[id].ticks| + 1, true), e);
    }
  }

  lemma TickedLawful(l: Life, k: Life, now: nat)
    requires Lawful(l) && l.stage.Underway? && Ticks(l) && |l.ticks| < l.spell.ticks && TickAt(l, |l.ticks| + 1) == now
    requires k == l.(ticks := l.ticks + [now])
    ensures Lawful(k)
  {
    hide Offset;
    forall i | 0 <= i < |k.ticks| ensures k.ticks[i] == TickAt(k, i + 1) {
      if i < |l.ticks| { assert k.ticks[i] == l.ticks[i] == TickAt(l, i + 1); }
    }
  }

  lemma TickedWaits(w: World, h: World, id: nat)
    requires id < |w.lives| && Queued(w, Nobody, id) && Ticking(w, Nobody, id) && HasFront(w) && h == Ticked(w, id)
    requires Front(w).Channel? && Front(w).parent == id && Front(w).tick == |w.lives[id].ticks| + 1
    requires w.lives[id].stage.Underway? && Ticks(w.lives[id]) && |w.lives[id].ticks| < w.lives[id].spell.ticks
    requires forall u, f :: Pending(w.q, u, f) && f != Front(w) ==> Pending(h.q, u, f)
    ensures Queued(h, Nobody, id) && Ticking(h, Nobody, id)
  {
    hide Pending;
    hide Offset;
    hide DropFront;
    var l := w.lives[id];
    if !l.stopped {
      forall i | |l.ticks| + 1 < i <= l.spell.ticks ensures TickWaits(h, id, i) { assert TickWaits(w, id, i); }
    }
  }

  /** A tick of a cast that was stopped is forgotten. */
  lemma TookStale(w: World)
    requires Inv(w, Nobody) && HasFront(w) && Front(w).Channel? && w.casting != Some(Front(w).parent)
    ensures Inv(Took(w), Nobody)
  {
    var r, e := Took(w), Front(w);
    TookQueue(w);
    assert Fits(w.now, w.lives, w.now, e);
    TookFits(w, Nobody);
    TookOthers(w, Nobody);
    hide DropFront;
    hide AllFit;
    hide Unique;
    hide Timely;
    hide NoneLike;
    hide Lawful;
    hide Queued;
    hide Ticking;
  }

  /** The tick in hand has been prepared, and its second half joins the queue. */
  lemma PreparedKeeps(w: World, id: nat, i: nat, spell: Spell)
    requires Inv(w, TheTick(id, i)) && id < |w.lives| && w.lives[id].spell == spell
    ensures Inv(w.(q := Append(w.q, w.now, Channel(id, spell, i, true))), Nobody)
  {
    var e := Channel(id, spell, i, true);
    var h := w.(q := Append(w.q, w.now, e));
    assert NoneLike(w.q, e);
    assert Fits(w.now, w.lives, w.now, e);
    AppendTimely(w.now, w.q, w.now, e);
    AppendUnique(w.q, w.now, e);
    Unheld(w, TheTick(id, i));
    AppendFits(w, Nobody, w.lives, w.now, e);
    AppendPending(w.q, w.now, e);
    hide Append;
    hide AllFit;
    hide Unique;
    hide Timely;
    hide NoneLike;
    hide Lawful;
    hide Queued;
    hide Ticking;
    forall k | 0 <= k < |h.lives|
      ensures Queued(h, Nobody, k) && Ticking(h, Nobody, k)
    {
      PreparedWaits(w, h, id, i, k);
    }
  }

  lemma Unheld(w: World, held: Held)
    requires AllFit(w, held)
    ensures AllFit(w, Nobody)
  {
    hide At;
    hide Fits;
  }

  lemma PreparedWaits(w: World, h: World, id: nat, i: nat, k: nat)
    requires k < |w.lives| && h.lives == w.lives && h.now == w.now && HeldFits(w, TheTick(id, i))
    requires Queued(w, TheTick(id, i), k) && Ticking(w, TheTick(id, i), k)
    requires forall u, f :: Pending(w.q, u, f) ==> Pending(h.q, u, f)
    requires Pending(h.q, w.now, Channel(id, w.lives[id].spell, i, true))
    ensures Queued(h, Nobody, k) && Ticking(h, Nobody, k)
  {
    hide Pending;
    hide Offset;
    var l := w.lives[k];
    if l.stage.Underway? && !l.stopped && Ticks(l) {
      forall j | |l.ticks| < j <= l.spell.ticks ensures TickWaits(h, k, j) {
        if k != id || j != i { assert TickWaits(w, k, j); }
      }
    }
  }

  /** The cast in hand is over: refused, missed, or completed. */
  lemma OverKeeps(w: World, id: nat)
    requires Inv(w, TheCast(id))
    ensures id < |w.lives| && Inv(WithLife(w.(casting := if w.lives[id].stage.Finishing? then None else w.casting), id,
                                           w.lives[id].(stage := Over)), Nobody)
  {
    var l := w.lives[id];
    var h := WithLife(w.(casting := if l.stage.Finishing? then None else w.casting), id, l.(stage := Over));
    HeldAbout(w, id);
    Unheld(w, TheCast(id));
    ChangedFits(w, h, Nobody, id);
    assert Lawful(l);
    OnTimeSame(l, l.(stage := Over));
    hide OnTime;
    assert Lawful(h.lives[id]);
    hide AllFit;
    hide Unique;
    hide Timely;
    hide Lawful;
    hide Queued;
    hide Ticking;
    forall k | 0 <= k < |h.lives| ensures Queued(h, Nobody, k) && Ticking(h, Nobody, k) && Lawful(h.lives[k]) {
      if k != id { OtherWaits(w, h, id, k); } else { NotWaiting(h, Nobody, id); }
    }
  }

  lemma HeldAbout(w: World, id: nat)
    requires AllFit(w, TheCast(id)) && HeldFits(w, TheCast(id))
    ensures forall t, i, e :: At(w.q, t, i, e) ==> !About(e, id)
  {
    hide At;
    forall t, i, e | At(w.q, t, i, e)
      ensures !About(e, id)
    {
      assert Fits(w.now, w.lives, t, e) && !IsHeld(e, TheCast(id));
    }
  }

  lemma OtherWaits(w: World, h: World, id: nat, k: nat)
    requires k < |w.lives| && k < |h.lives| && k != id && h.lives[k] == w.lives[k] && h.now == w.now
    requires Queued(w, TheCast(id), k) && Ticking(w, TheCast(id), k)
    requires forall u, f :: Pending(w.q, u, f) ==> Pending(h.q, u, f)
    ensures Queued(h, Nobody, k) && Ticking(h, Nobody, k)
  {
    hide Pending;
    hide Offset;
    var l := w.lives[k];
    if l.stage.Underway? && !l.stopped && Ticks(l) {
      forall j | |l.ticks| < j <= l.spell.ticks ensures TickWaits(h, k, j) { assert TickWaits(w, k, j); }
    }
  }

  /** The clock moves on, no further than the next event. */
  lemma ClockMoves(w: World, now: nat)
    requires Inv(w, Nobody) && w.now <= now && forall t :: t in w.q ==> now <= t
    ensures Inv(w.(now := now), Nobody)
  {
    var h := w.(now := now);
    if now > w.now {
      NothingNow(w, now);
      hide Unique;
      hide Lawful;
      hide Offset;
      hide Pending;
      hide At;
      assert AllFit(h, Nobody);
      hide AllFit;
      forall k | 0 <= k < |h.lives| ensures Queued(h, Nobody, k) && Ticking(h, Nobody, k) {
        assert Queued(w, Nobody, k) && Ticking(w, Nobody, k);
        var l := w.lives[k];
        if l.stage.Underway? && !l.stopped && Ticks(l) {
          forall j | |l.ticks| < j <= l.spell.ticks ensures TickWaits(h, k, j) { assert TickWaits(w, k, j); }
        }
      }
    }
  }

  lemma NothingNow(w: World, now: nat)
    requires w.now < now && forall t :: t in w.q ==> now <= t
    ensures forall i, e :: !At(w.q, w.now, i, e)
    ensures forall e :: !Pending(w.q, w.now, e)
  {}

  // -------------------------------------------------------------------------------- a cast that begins

  /** The events of the first `k` ticks of a channel. */
  function ChannelQueue(q: Queue<Event>, now: nat, id: nat, spell: Spell, time: nat, k: nat): Queue<Event>
    requires 0 < spell.ticks <= time && k <= spell.ticks
  {
    if k == 0 then q
    else
      OffsetIn(time, spell.ticks, k);
      Append(ChannelQueue(q, now, id, spell, time, k - 1), now + Offset(time, spell.ticks, k),
             Channel(id, spell, k, false))
  }

  ghost predicate Strange(q: Queue<Event>, id: nat) { forall t, i, e :: At(q, t, i, e) ==> !About(e, id) }

  /** The first `k` ticks of a channel are in the queue. */
  ghost predicate TicksQueued(r: Queue<Event>, now: nat, id: nat, spell: Spell, time: nat, k: nat) {
    spell.ticks > 0 && forall j :: 1 <= j <= k ==> TickQueued(r, now, id, spell, time, j)
  }

  ghost predicate TickQueued(r: Queue<Event>, now: nat, id: nat, spell: Spell, time: nat, j: nat)
    requires spell.ticks > 0
  {
    var d := Offset(time, spell.ticks, j);
    d >= 0 && Pending(r, now + d, Channel(id, spell, j, false))
  }

  lemma TicksStay(q: Queue<Event>, r: Queue<Event>, now: nat, id: nat, spell: Spell, time: nat, k: nat)
    requires TicksQueued(q, now, id, spell, time, k) && forall u, f :: Pending(q, u, f) ==> Pending(r, u, f)
    ensures TicksQueued(r, now, id, spell, time, k)
  {
    hide Pending;
    hide Offset;
    forall j | 1 <= j <= k
      ensures TickQueued(r, now, id, spell, time, j)
    {
      assert TickQueued(q, now, id, spell, time, j);
    }
  }

  /** An event that was in the queue before, or one of the first `k` ticks. */
  ghost predicate OldOrTick(q: Queue<Event>, now: nat, id: nat, spell: Spell, time: nat, k: nat, t: nat, e: Event) {
    || (exists m :: At(q, t, m, e))
    || (e.Channel? && e == Channel(id, spell, e.tick, false) && 1 <= e.tick <= k <= spell.ticks
        && t == now + Offset(time, spell.ticks, e.tick))
  }

  /** What is in the queue once the ticks are: what there was, and the ticks. */
  lemma {:induction false} ChannelAt(q: Queue<Event>, now: nat, id: nat, spell: Spell, time: nat, k: nat)
    requires 0 < spell.ticks <= time && k <= spell.ticks && Timely(now, q) && Unique(q) && Strange(q, id)
    ensures var r := ChannelQueue(q, now, id, spell, time, k);
      && Timely(now, r) && Unique(r) && (forall u, f :: Pending(q, u, f) ==> Pending(r, u, f))
      && TicksQueued(r, now, id, spell, time, k)
        && (forall t, i, e :: At(r, t, i, e) ==> OldOrTick(q, now, id, spell, time, k, t, e))
  {
    hide At;
    hide Append;
    hide Timely;
    hide Pending;
    hide Unique;
    hide Offset;
    if k > 0 {
      var p, e := ChannelQueue(q, now, id, spell, time, k - 1), Channel(id, spell, k, false);
      OffsetIn(time, spell.ticks, k);
      var t := now + Offset(time, spell.ticks, k);
      ChannelAt(q, now, id, spell, time, k - 1);
      assert NoneLike(p, e) by {
        forall u, i, f | At(p, u, i, f) ensures !SameOne(e, f) {
          if m :| At(q, u, m, f) { assert !About(f, id); }
        }
      }
      AppendTimely(now, p, t, e);
      AppendUnique(p, t, e);
      AppendPending(p, t, e);
      AppendAt(p, t, e);
      TicksStay(p, ChannelQueue(q, now, id, spell, time, k), now, id, spell, time, k - 1);
      assert TickQueued(ChannelQueue(q, now, id, spell, time, k), now, id, spell, time, k);
    }
  }

  function BegunQueue(q: Queue<Event>, now: nat, id: nat, spell: Spell, time: nat, recovery: nat): Queue<Event>
    requires spell.channel ==> 0 < spell.ticks <= time
  {
    Append(if spell.channel then ChannelQueue(q, now, id, spell, time, spell.ticks) else q, now + time,
           Cast(id, spell, true, recovery))
  }

  function Begun(w: World, id: nat, time: nat, recovery: nat): World
    requires id < |w.lives| && (w.lives[id].spell.channel ==> 0 < w.lives[id].spell.ticks <= time)
  {
    var l := w.lives[id];
    World(w.now, BegunQueue(w.q, w.now, id, l.spell, time, recovery), Some(id),
          w.lives[id := Life(l.spell, Underway, true, w.now, time, recovery, false, 0, [])])
  }

  /** Nothing is new in the queue but the ticks and the completion of the cast. */
  ghost predicate OnlyBegun(q: Queue<Event>, r: Queue<Event>, now: nat, id: nat, spell: Spell, time: nat,
                            recovery: nat) {
    forall t, i, e :: At(r, t, i, e) ==>
      || OldOrTick(q, now, id, spell, time, if spell.channel then spell.ticks else 0, t, e)
      || (e == Cast(id, spell, true, recovery) && t == now + time)
  }

  lemma BegunAt(q: Queue<Event>, now: nat, id: nat, spell: Spell, time: nat, recovery: nat)
    requires (spell.channel ==> 0 < spell.ticks <= time) && Timely(now, q) && Unique(q) && Strange(q, id)
    ensures var r, last := BegunQueue(q, now, id, spell, time, recovery), Cast(id, spell, true, recovery);
      && Timely(now, r) && Unique(r) && (forall u, f :: Pending(q, u, f) ==> Pending(r, u, f))
        && Pending(r, now + time, last)
      && (spell.channel ==> TicksQueued(r, now, id, spell, time, spell.ticks))
        && OnlyBegun(q, r, now, id, spell, time, recovery)
  {
    var p := if spell.channel then ChannelQueue(q, now, id, spell, time, spell.ticks) else q;
    var last := Cast(id, spell, true, recovery);
    if spell.channel { ChannelAt(q, now, id, spell, time, spell.ticks); }
    hide ChannelQueue;
    hide Unique;
    hide Timely;
    hide At;
    hide Pending;
    hide Offset;
    hide Append;
    assert NoneLike(p, last) by {
      forall u, i, f | At(p, u, i, f) ensures !SameOne(last, f) {
        if m :| At(q, u, m, f) { assert !About(f, id); }
      }
    }
    AppendTimely(now, p, now + time, last);
    AppendUnique(p, now + time, last);
    AppendPending(p, now + time, last);
    AppendAt(p, now + time, last);
    if spell.channel { TicksStay(p, BegunQueue(q, now, id, spell, time, recovery), now, id, spell, time, spell.ticks); }
  }

  /** The cast in hand begins: it is current from now on, its ticks are in the queue, and its completion after them. */
  lemma BegunKeeps(w: World, id: nat, time: nat, recovery: nat)
    requires Inv(w, TheCast(id)) && id < |w.lives| && w.lives[id].stage.Waiting? && w.casting == None
    requires w.lives[id].spell.channel ==> 0 < w.lives[id].spell.ticks <= time
    ensures Inv(Begun(w, id, time, recovery), Nobody)
  {
    var h, l := Begun(w, id, time, recovery), w.lives[id];
    HeldAbout(w, id);
    assert Strange(w.q, id);
    BegunAt(w.q, w.now, id, l.spell, time, recovery);
    hide BegunQueue;
    BegunFits(w, h, id, time, recovery);
    BegunWaits(h, id);
    assert Lawful(h.lives[id]);
    assert Current(h, Nobody);
    hide AllFit;
    hide Current;
    hide Unique;
    hide Timely;
    hide Lawful;
    hide Queued;
    hide Ticking;
    hide At;
    forall k | 0 <= k < |h.lives| ensures Queued(h, Nobody, k) && Ticking(h, Nobody, k) && Lawful(h.lives[k]) {
      if k != id { OtherWaits(w, h, id, k); }
    }
  }

  lemma BegunFits(w: World, h: World, id: nat, time: nat, recovery: nat)
    requires AllFit(w, TheCast(id)) && Strange(w.q, id) && id < |w.lives|
    requires (w.lives[id].spell.channel ==> 0 < w.lives[id].spell.ticks <= time) && h == Begun(w, id, time, recovery)
    requires OnlyBegun(w.q, h.q, w.now, id, w.lives[id].spell, time, recovery)
    ensures AllFit(h, Nobody)
  {
    hide At;
    hide Offset;
    hide BegunQueue;
    forall t, i, e | At(h.q, t, i, e) ensures Fits(h.now, h.lives, t, e) {
      if m :| At(w.q, t, m, e) { assert Fits(w.now, w.lives, t, e) && !About(e, id); }
    }
  }

  lemma BegunWaits(h: World, id: nat)
    requires id < |h.lives| && h.lives[id].stage.Underway? && h.lives[id].start == h.now && h.lives[id].ticks == []
    requires Pending(h.q, Finish(h.lives[id]), Cast(id, h.lives[id].spell, true, h.lives[id].recovery))
    requires h.lives[id].spell.channel ==>
      TicksQueued(h.q, h.now, id, h.lives[id].spell, h.lives[id].time, h.lives[id].spell.ticks)
    ensures Queued(h, Nobody, id) && Ticking(h, Nobody, id)
  {
    hide Pending;
    hide Offset;
    var l := h.lives[id];
    if Ticks(l) {
      forall j | |l.ticks| < j <= l.spell.ticks ensures TickWaits(h, id, j) {
        assert TickQueued(h.q, h.now, id, l.spell, l.time, j);
      }
    }
  }

  // --------------------------------------------------------------------------------------- the player

  /** What a script may do: ask for a cast, stop the current one, wait, or make other events. */
  datatype Action = CastSpell(spell: Spell) | StopCasting | PlayerSleep(time: nat) | AddOther(delay: nat)

  /** One call into a script, and what haste and luck are like after it. */
  datatype Roll = Roll(acts: seq<Action>, time: Spell -> nat, gcd: nat, hit: bool)

  /** A channel has ticks. */
  predicate Proper(s: Spell) { s.channel ==> s.ticks > 0 }

  predicate ProperActs(acts: seq<Action>) {
    forall i :: 0 <= i < |acts| && acts[i].CastSpell? ==> Proper(acts[i].spell)
  }

  /** Casting a channel takes at least as long as it has ticks. */
  ghost predicate Sane(r: Roll) {
    ProperActs(r.acts) && forall s: Spell :: s.channel && s.ticks > 0 ==> s.ticks <= r.time(s)
  }

  /** It adds no event to the instant at which it runs. */
  predicate Quiet(acts: seq<Action>) {
    forall i :: 0 <= i < |acts| ==> !acts[i].CastSpell? && (acts[i].AddOther? ==> acts[i].delay > 0)
  }

  /** How many more events an event may lead to at the same instant. */
  function Weight(e: Event): nat {
    match e
    case Cast(_, _, post, _) => if post then 1 else 4
    case Channel(_, _, _, post) => if post then 1 else 2
    case Other => 1
  }

  function Load(s: seq<Event>): nat { if s == [] then 0 else Load(s[..|s| - 1]) + Weight(s[|s| - 1]) }

  lemma LoadMore(s: seq<Event>, e: Event)
    ensures Load(s + [e]) == Load(s) + Weight(e)
  {
    assert (s + [e])[..|s|] == s;
  }

  lemma {:induction false} LoadFront(s: seq<Event>)
    requires s != []
    ensures Load(s) == Weight(s[0]) + Load(s[1..])
  {
    if |s| > 1 {
      LoadFront(s[..|s| - 1]);
      assert s[..|s| - 1][1..] == s[1..][..|s| - 2];
    } else {
      assert s[..0] == [] && s[1..] == [];
    }
  }

  /** The player, and all that concerns the casting of spells. */
  datatype Player = Player(w: World, recovery: nat, cooldowns: map<nat, nat>, calls: nat)

  predicate Idle(p: Player) { p.w.casting.None? && p.recovery <= p.w.now }

  /** What one act of a script does. */
  function AfterAct(p: Player, a: Action): Player {
    match a
    case CastSpell(spell) =>
      if !Idle(p) then p
      else p.(w := p.w.(q := Append(p.w.q, p.w.now, Cast(|p.w.lives|, spell, false, 0)),
                        lives := p.w.lives + [Life(spell, Waiting, false, 0, 0, 0, false, 0, [])]))
    case StopCasting =>
      p.(w := p.w.(casting := None,
                   lives := match p.w.casting
                     case None => p.w.lives
                     case Some(c) =>
                       if c < |p.w.lives| && p.w.lives[c].stage.Underway?
                       then p.w.lives[c := p.w.lives[c].(stopped := true)] else p.w.lives))
    case PlayerSleep(time) => if Idle(p) then p.(recovery := p.w.now + time) else p
    case AddOther(delay) => p.(w := p.w.(q := Append(p.w.q, p.w.now + delay, Other)))
  }

  /** What a call into a script does: its acts, one after the other. */
  function AfterActs(p: Player, acts: seq<Action>): Player {
    if acts == [] then p else AfterAct(AfterActs(p, acts[..|acts| - 1]), acts[|acts| - 1])
  }

  function Called(p: Player, acts: seq<Action>): Player { AfterActs(p.(calls := p.calls + 1), acts) }

  lemma ActsMore(p: Player, acts: seq<Action>, a: Action)
    ensures AfterActs(p, acts + [a]) == AfterAct(AfterActs(p, acts), a)
  {
    assert (acts + [a])[..|acts|] == acts;
  }

  lemma ActKeeps(p: Player, a: Action, id: nat)
    requires id < |p.w.lives|
    ensures var q := AfterAct(p, a);
      && id < |q.w.lives| && q.w.now == p.w.now && SameOrStopped(p.w.lives[id], q.w.lives[id])
      && (p.w.lives[id].stage.Waiting? ==> q.w.lives[id] == p.w.lives[id])
  {}

  /** No cast is forgotten, and what waits for its turn goes on waiting. */
  lemma {:induction false} ActsKeep(p: Player, acts: seq<Action>, id: nat)
    requires id < |p.w.lives|
    ensures id < |AfterActs(p, acts).w.lives| && AfterActs(p, acts).w.now == p.w.now
    ensures SameOrStopped(p.w.lives[id], AfterActs(p, acts).w.lives[id])
    ensures p.w.lives[id].stage.Waiting? ==> AfterActs(p, acts).w.lives[id] == p.w.lives[id]
  {
    hide AfterAct;
    if acts != [] {
      var n := |acts| - 1;
      ActsKeep(p, acts[..n], id);
      ActKeeps(AfterActs(p, acts[..n]), acts[n], id);
    }
  }

  /** A cast that the player, being idle, asks for is there after the call, in the order of asking. */
  lemma {:induction false} ActsAsk(p: Player, acts: seq<Action>, i: nat)
    requires i < |acts| && acts[i].CastSpell? && Idle(AfterActs(p, acts[..i]))
    ensures var id := |AfterActs(p, acts[..i]).w.lives|;
      id < |AfterActs(p, acts).w.lives| && AfterActs(p, acts).w.lives[id] == NewLife(acts[i].spell)
    decreases |acts|
  {
    var n := |acts| - 1;
    var last := acts[..n];
    var id := |AfterActs(p, acts[..i]).w.lives|;
    if i < n {
      hide AfterAct;
      assert last[..i] == acts[..i];
      ActsAsk(p, last, i);
      ActKeeps(AfterActs(p, last), acts[n], id);
    } else {
      AskedLife(AfterActs(p, last), acts[n].spell);
    }
  }

  lemma AskedLife(p: Player, spell: Spell)
    requires Idle(p)
    ensures var q := AfterAct(p, CastSpell(spell));
      |q.w.lives| == |p.w.lives| + 1 && q.w.lives[|p.w.lives|] == NewLife(spell)
  {}

  /** What becomes of cast `e` when its turn has come: it is refused unless the player is idle; a channel may miss at
      once; or it is the current one, underway as haste and the global cooldown were after its script. */
  ghost predicate Begins(p: Player, e: Event, r: Roll, k: Player)
    requires e.Cast?
  {
    var id := e.id;
    && id < |p.w.lives|
    && if !Idle(p) then k == p.(w := p.w.(lives := p.w.lives[id := p.w.lives[id].(stage := Over)]))
       else
         Launches(Called(p, r.acts), e, r, k)
  }

  /** A channel misses; or the cast is the current one, with its events. */
  ghost predicate Launches(q: Player, e: Event, r: Roll, k: Player)
    requires e.Cast?
  {
    var id, now := e.id, q.w.now;
    && id < |q.w.lives| && (e.spell.channel ==> 0 < e.spell.ticks <= r.time(e.spell))
    && k == if e.spell.channel && !r.hit then
              q.(recovery := now + r.gcd,
                 w := q.w.(casting := None, lives := q.w.lives[id := NewLife(e.spell).(stage := Over)]))
            else
              q.(w := World(now, BegunQueue(q.w.q, now, id, e.spell, r.time(e.spell), now + r.gcd), Some(id),
                            q.w.lives[id := Life(e.spell, Underway, true, now, r.time(e.spell), now + r.gcd, false, 0,
                                                 [])]))
  }

  /** What becomes of cast `e` when its time is over: it is completed, once more, if it is the current one. */
  ghost predicate Ends(p: Player, e: Event, r: Roll, k: Player)
    requires e.Cast?
  {
    var id := e.id;
    && id < |p.w.lives|
    && if p.w.casting != Some(id) then k == p.(w := p.w.(lives := p.w.lives[id := p.w.lives[id].(stage := Over)]))
       else
         var l := p.w.lives[id];
         Completes(p.(w := p.w.(lives := p.w.lives[id := l.(stage := Finishing, posts := l.posts + 1)])), e, r, k)
  }

  /** A hit has its script called, and the spell cools down; then the player is free. */
  ghost predicate Completes(p: Player, e: Event, r: Roll, k: Player)
    requires e.Cast?
  {
    var q, id := Called(p, if r.hit then r.acts else []), e.id;
    && id < |q.w.lives|
    && k == q.(w := q.w.(casting := None, lives := q.w.lives[id := q.w.lives[id].(stage := Over)]),
               recovery := e.recovery,
               cooldowns := if r.hit && e.spell.cooldown != 0 then q.cooldowns[e.spell.id := q.w.now + e.spell.cooldown]
                            else q.cooldowns)
  }

  /** What becomes of a tick: it is forgotten if its cast is no longer the current one; or it is prepared first, and
      noted after that. */
  ghost predicate RunsTick(p: Player, e: Event, r: Roll, k: Player)
    requires e.Channel?
  {
    var id := e.parent;
    && id < |p.w.lives|
    && if p.w.casting != Some(id) then k == p
       else if !e.post then
         var q := Called(p, r.acts);
         k == q.(w := q.w.(q := Append(q.w.q, p.w.now, Channel(id, e.spell, e.tick, true))))
       else
         var l := p.w.lives[id];
         k == Called(p.(w := p.w.(lives := p.w.lives[id := l.(ticks := l.ticks + [p.w.now])])),
                     if r.hit then r.acts else [])
  }

  /** One event has run, with what its script does. */
  ghost predicate Turn(script: (nat, nat) -> Roll, p: Player, k: Player) {
    HasFront(p.w) &&
    var e, rest, r := Front(p.w), p.(w := Took(p.w)), script(p.w.now, p.calls);
    match e
    case Cast(_, _, post, _) => if post then Ends(rest, e, r, k) else Begins(rest, e, r, k)
    case Channel(_, _, _, _) => RunsTick(rest, e, r, k)
    case Other => k == Called(rest, r.acts)
  }

  ghost predicate AllTurns(script: (nat, nat) -> Roll, ps: seq<Player>) {
    forall i :: 0 < i < |ps| ==> Turn(script, ps[i - 1], ps[i])
  }

  /** `ProcessEvent` has run everything due, event by event; or it has moved the clock. */
  ghost predicate Processed(script: (nat, nat) -> Roll, p: Player, available: nat, ran: bool, k: Player) {
    if ran then
      && k.w.now == p.w.now && k.w.now !in k.w.q
      && exists ps :: |ps| > 1 && ps[0] == p && ps[|ps| - 1] == k && AllTurns(script, ps)
    else
      && p.w.now !in p.w.q && Reached(p.w.now, available, p.w.q, k.w.now)
      && k == p.(w := p.w.(now := k.w.now), calls := if k.w.now > p.w.now then 0 else p.calls)
  }

  /** One round of the main loop: whenever the player is idle then, the scripts are asked what to do. */
  ghost predicate Round(script: (nat, nat) -> Roll, p: Player, k: Player) {
    exists ran, m :: RoundBy(script, p, ran, m, k)
  }

  ghost predicate RoundBy(script: (nat, nat) -> Roll, p: Player, ran: bool, m: Player, k: Player) {
    && Processed(script, p, if p.recovery > p.w.now then p.recovery - p.w.now else 0, ran, m)
    && k == if Idle(m) then Called(m, script(m.w.now, m.calls).acts) else m
  }

  lemma RanFront(script: (nat, nat) -> Roll, p: Player, available: nat, k: Player)
    requires Processed(script, p, available, true, k)
    ensures HasFront(p.w)
  {
    var ps :| |ps| > 1 && ps[0] == p && ps[|ps| - 1] == k && AllTurns(script, ps);
    assert Turn(script, ps[0], ps[1]);
  }

  /** The first round of all, when the idle player's script asks for a cast: the cast waits for its turn. */
  lemma FirstCast(script: (nat, nat) -> Roll, spell: Spell, p: Player, k: Player)
    requires p == Player(World(0, map[], None, []), 0, map[], 0) && Round(script, p, k)
    requires script(0, 0).acts == [CastSpell(spell)]
    ensures k.w.lives == [NewLife(spell)] && Pending(k.w.q, 0, Cast(0, spell, false, 0)) && k.w.now == 0
  {
    var ran, m :| RoundBy(script, p, ran, m, k);
    if ran { RanFront(script, p, 0, m); }
    assert m == p;
    var acts := script(0, 0).acts;
    assert acts[..0] == [] && acts[0] == CastSpell(spell);
    assert AfterActs(p.(calls := 1), acts) == AfterAct(AfterActs(p.(calls := 1), []), acts[0]);
    assert At(k.w.q, 0, 0, Cast(0, spell, false, 0));
  }

  class Caster {
    var now: nat
    var queue: Queue<Event>
    var casting: Option<nat>
    /** When the global cooldown is over. */
    var recovery: nat
    var cooldowns: map<nat, nat>
    /** How many casts have been asked for. */
    var made: nat
    /** What the scripts do: at a time, in their so manieth call at that time. */
    const script: (nat, nat) -> Roll
    /** How many calls at one time may add events to that same time; there is no other limit to what scripts do. */
    ghost const noisy: nat -> nat
    /** How many calls into scripts there have been at this time. */
    var calls: nat
    ghost var lives: seq<Life>

    predicate Busy()
      reads `now, `queue
    {
      now in queue && queue[now] != []
    }

    /** The state; without the event in hand, while there is one. */
    ghost function Snap(inHand: bool): World
      requires inHand ==> Busy()
      reads this
    {
      World(now, if inHand then DropFront(queue, now) else queue, casting, lives)
    }

    ghost function Me(inHand: bool): Player
      requires inHand ==> Busy()
      reads this
    {
      Player(Snap(inHand), recovery, cooldowns, calls)
    }

    ghost predicate Valid()
      reads `made, `lives
    {
      && made == |lives|
        && (forall t: nat, n: nat :: Sane(script(t, n)) && (n >= noisy(t) ==> Quiet(script(t, n).acts)))
      && (forall id :: 0 <= id < |lives| ==> Proper(lives[id].spell))
    }

    /** `IsIdle`. */
    predicate IsIdle()
      reads `casting, `recovery, `now
    {
      casting.None? && recovery <= now
    }

    /** `AddEvent`. */
    method AddEvent(e: Event, delay: nat, ghost inHand: bool)
      requires inHand ==> Busy()
      modifies `queue
      ensures queue == Append(old(queue), now + delay, e)
      ensures inHand ==>
        Busy() && queue[now][0] == old(queue)[now][0]
          && DropFront(queue, now) == Append(old(DropFront(queue, now)), now + delay, e)
    {
      if inHand { DropLater(queue, now, now + delay, e); }
      var t := now + delay;
      if t in queue {
        queue := queue[t := queue[t] + [e]];
      } else {
        queue := queue[t := [e]];
        assert [] + [e] == [e];
      }
    }

    /** One thing that a script does. */
    method Act(a: Action, ghost inHand: bool, ghost held: Held)
      requires Valid() && (inHand ==> Busy()) && Inv(Snap(inHand), held) && (a.CastSpell? ==> Proper(a.spell))
      modifies `queue, `casting, `recovery, `made, `lives
      ensures Valid() && (inHand ==> Busy() && queue[now][0] == old(queue)[now][0]) && Inv(Snap(inHand), held)
      ensures casting == old(casting) || casting == None
      ensures |lives| >= |old(lives)| && forall k :: 0 <= k < |old(lives)| ==> SameOrStopped(old(lives)[k], lives[k])
      ensures inHand && Quiet([a]) ==> Load(queue[now]) == Load(old(queue)[now])
      ensures Me(inHand) == AfterAct(old(Me(inHand)), a)
    {
      hide Inv;
      hide Append;
      hide DropFront;
      hide Load;
      assert Quiet([a]) ==> [a][0] == a;
      match a {
        case CastSpell(spell) =>
          if IsIdle() {
            AskedKeeps(Snap(inHand), held, spell);
            ghost var h := Asked(Snap(inHand), spell);
            AddEvent(Cast(made, spell, false, 0), 0, inHand);
            made := made + 1;
            lives := h.lives;
            assert Snap(inHand) == h;
          }
        case StopCasting =>
          StoppedKeeps(Snap(inHand), held);
          ghost var h := Stopped(Snap(inHand));
          casting := None;
          lives := h.lives;
          assert Snap(inHand) == h;
        case PlayerSleep(time) =>
          if IsIdle() {
            recovery := now + time;
          }
        case AddOther(delay) =>
          OtherKeeps(Snap(inHand), held, now + delay);
          if inHand { AppendLoad(queue, now, now + delay, Other); }
          AddEvent(Other, delay, inHand);
      }
    }

    /** `CallLuaFunction`. */
    method Call(acts: seq<Action>, ghost inHand: bool, ghost held: Held)
      requires Valid() && (inHand ==> Busy()) && Inv(Snap(inHand), held) && ProperActs(acts)
      modifies `queue, `casting, `recovery, `made, `lives
      ensures Valid() && (inHand ==> Busy() && queue[now][0] == old(queue)[now][0]) && Inv(Snap(inHand), held)
      ensures casting == old(casting) || casting == None
      ensures |lives| >= |old(lives)| && forall k :: 0 <= k < |old(lives)| ==> SameOrStopped(old(lives)[k], lives[k])
      ensures inHand && Quiet(acts) ==> Load(queue[now]) == Load(old(queue)[now])
      ensures Me(inHand) == AfterActs(old(Me(inHand)), acts)
    {
      hide Inv;
      hide Load;
      hide AfterAct;
      ghost var p := Me(inHand);
      assert acts[..0] == [];
      var i := 0;
      while i < |acts|
        invariant 0 <= i <= |acts| && Valid() && (inHand ==> Busy() && queue[now][0] == old(queue)[now][0])
        invariant Inv(Snap(inHand), held)
        invariant casting == old(casting) || casting == None
        invariant |lives| >= |old(lives)|
        invariant forall k :: 0 <= k < |old(lives)| ==> SameOrStopped(old(lives)[k], lives[k])
        invariant inHand && Quiet(acts) ==> Load(queue[now]) == Load(old(queue)[now])
        invariant Me(inHand) == AfterActs(p, acts[..i])
      {
        assert Quiet(acts) ==> Quiet([acts[i]]);
        Act(acts[i], inHand, held);
        ActsMore(p, acts[..i], acts[i]);
        assert acts[..i] + [acts[i]] == acts[..i + 1];
        i := i + 1;
      }
      assert acts[..|acts|] == acts;
    }

    /** What the next call into a script will do. */
    method NextRoll() returns (r: Roll)
      requires Valid()
      modifies `calls
      ensures Valid() && Sane(r) && calls == old(calls) + 1 && (old(calls) >= noisy(now) ==> Quiet(r.acts))
      ensures r == script(now, old(calls))
    {
      r := script(now, calls);
      calls := calls + 1;
    }

    /** The next call into a script, while an event is in hand; if it `must` hit, it may not come to that. */
    method CallNext(must: bool, ghost held: Held) returns (r: Roll)
      requires Valid() && Busy() && Inv(Snap(true), held)
      modifies `queue, `casting, `recovery, `made, `calls, `lives
      ensures Valid() && Busy() && queue[now][0] == old(queue)[now][0] && Inv(Snap(true), held)
      ensures Sane(r) && r == script(now, old(calls))
      ensures Me(true) == Called(old(Me(true)), if must && !r.hit then [] else r.acts)
      ensures casting == old(casting) || casting == None
      ensures |lives| >= |old(lives)| && forall k :: 0 <= k < |old(lives)| ==> SameOrStopped(old(lives)[k], lives[k])
      ensures Noise() < old(Noise()) || (Noise() == old(Noise()) && Load(queue[now]) == Load(old(queue)[now]))
    {
      hide Inv;
      hide Load;
      hide AfterAct;
      r := NextRoll();
      if !must || r.hit {
        Call(r.acts, true, held);
      }
    }

    /** How many calls at this time may still add to it. */
    ghost function Noise(): nat
      reads `calls, `now
    {
      if calls < noisy(now) then noisy(now) - calls else 0
    }

    /** The event in hand is still in front, and what is left to do at this time has become less, unless a script
        added to it. */
    twostate predicate Progress(e: Event)
      requires Busy() && old(Busy())
      reads this
    {
      && queue[now][0] == e
      && (Noise() < old(Noise()) || (Noise() == old(Noise()) && Load(queue[now]) < Load(old(queue[now])) + Weight(e)))
    }

    /** The loop of `PreAction` over the ticks of a channel. */
    method AddTicks(id: nat, spell: Spell, time: nat)
      requires Busy() && 0 < spell.ticks <= time
      modifies `queue
      ensures Busy() && queue[now][0] == old(queue)[now][0] && Load(queue[now]) <= Load(old(queue)[now]) + 2
      ensures DropFront(queue, now) == ChannelQueue(old(DropFront(queue, now)), now, id, spell, time, spell.ticks)
    {
      hide Append;
      hide DropFront;
      hide Offset;
      var i := 1;
      while i <= spell.ticks
        invariant 1 <= i <= spell.ticks + 1 && Busy() && queue[now][0] == old(queue)[now][0]
        invariant Load(queue[now]) <= Load(old(queue)[now]) + if i == 1 then 0 else 2
        invariant DropFront(queue, now) == ChannelQueue(old(DropFront(queue, now)), now, id, spell, time, i - 1)
      {
        OffsetIn(time, spell.ticks, i);
        if i > 1 {
          OffsetUp(time, spell.ticks, 1, i);
          OffsetIn(time, spell.ticks, 1);
        }
        AppendLoad(queue, now, now + Offset(time, spell.ticks, i), Channel(id, spell, i, false));
        AddEvent(Channel(id, spell, i, false), Offset(time, spell.ticks, i), true);
        i := i + 1;
      }
    }

    /** `CSpellEvent::operator()` and `PreAction`, for a cast: refused unless the player is idle; a channel may miss
        at once. */
    method CastBegins(e: Event)
      requires Valid() && Busy() && queue[now][0] == e && e.Cast? && !e.post && Inv(Snap(false), Nobody)
      modifies `queue, `casting, `recovery, `made, `calls, `lives
      ensures Valid() && Busy() && Inv(Snap(true), Nobody) && Progress(e)
      ensures Begins(old(Me(true)), e, script(now, old(calls)), Me(true))
    {
      hide Inv;
      hide Append;
      hide DropFront;
      hide Load;
      hide BegunQueue;
      TookCast(Snap(false));
      assert Snap(true) == Took(Snap(false));
      if !IsIdle() {
        OverKeeps(Snap(true), e.id);
        lives := lives[e.id := lives[e.id].(stage := Over)];
        return;
      }
      var r := CallNext(false, TheCast(e.id));
      assert lives[e.id] == NewLife(e.spell);
      hide Called;
      Launch(e, r);
    }

    /** What `PreAction` does after its script. */
    method Launch(e: Event, r: Roll)
      requires Valid() && Busy() && queue[now][0] == e && e.Cast? && !e.post && Sane(r)
      requires Inv(Snap(true), TheCast(e.id))
      requires e.id < |lives| && lives[e.id] == NewLife(e.spell) && casting == None
      modifies `queue, `casting, `recovery, `lives
      ensures Valid() && Busy() && Inv(Snap(true), Nobody) && queue[now][0] == e
      ensures Launches(old(Me(true)), e, r, Me(true)) && Load(queue[now]) <= Load(old(queue)[now]) + 2
    {
      hide Inv;
      hide Append;
      hide DropFront;
      hide Load;
      hide BegunQueue;
      ghost var w := Snap(true);
      casting := Some(e.id);
      var gcd := now + r.gcd;
      if e.spell.channel && !r.hit {
        recovery := gcd;
        casting := None;
        OverKeeps(w, e.id);
        lives := lives[e.id := lives[e.id].(stage := Over)];
        return;
      }
      var time := r.time(e.spell);
      BegunKeeps(w, e.id, time, gcd);
      Starts(e, time, gcd);
      lives := Begun(w, e.id, time, gcd).lives;
      assert Snap(true) == Begun(w, e.id, time, gcd);
    }

    /** The events of a cast that begins. */
    method Starts(e: Event, time: nat, gcd: nat)
      requires Busy() && e.Cast? && (e.spell.channel ==> 0 < e.spell.ticks <= time)
      modifies `queue
      ensures Busy() && DropFront(queue, now) == BegunQueue(old(DropFront(queue, now)), now, e.id, e.spell, time, gcd)
      ensures Load(queue[now]) <= Load(old(queue)[now]) + 2 && queue[now][0] == old(queue)[now][0]
    {
      hide Append;
      hide DropFront;
      hide Load;
      if e.spell.channel {
        AddTicks(e.id, e.spell, time);
      }
      AppendLoad(queue, now, now + time, Cast(e.id, e.spell, true, gcd));
      AddEvent(Cast(e.id, e.spell, true, gcd), time, true);
    }

    /** `operator()` and `PostAction`, for a cast: completed if it is still the current one. */
    method CastEnds(e: Event)
      requires Valid() && Busy() && queue[now][0] == e && e.Cast? && e.post && Inv(Snap(false), Nobody)
      modifies `queue, `casting, `recovery, `cooldowns, `made, `calls, `lives
      ensures Valid() && Busy() && Inv(Snap(true), Nobody) && Progress(e)
      ensures Ends(old(Me(true)), e, script(now, old(calls)), Me(true))
    {
      hide Inv;
      hide Append;
      hide DropFront;
      hide Load;
      ghost var w := Snap(false);
      TookDue(w);
      if casting != Some(e.id) {
        lives := Dropped(w, e.id).lives;
        assert Snap(true) == Dropped(w, e.id);
        return;
      }
      lives := Completing(w, e.id).lives;
      assert Snap(true) == Completing(w, e.id);
      Complete(e);
    }

    /** `PostAction`, for a cast. */
    method Complete(e: Event)
      requires Valid() && Busy() && queue[now][0] == e && e.Cast? && e.post && Inv(Snap(true), TheCast(e.id))
      requires e.id < |lives| && lives[e.id].stage.Finishing?
      modifies `queue, `casting, `recovery, `cooldowns, `made, `calls, `lives
      ensures Valid() && Busy() && Inv(Snap(true), Nobody) && Progress(e)
      ensures Completes(old(Me(true)), e, script(now, old(calls)), Me(true))
    {
      hide Inv;
      hide DropFront;
      hide Load;
      var r := CallNext(true, TheCast(e.id));
      hide Called;
      if r.hit && e.spell.cooldown != 0 {
        cooldowns := cooldowns[e.spell.id := now + e.spell.cooldown];
      }
      Close(e.id, e.recovery);
    }

    /** The cast in hand is over, and the player free again. */
    method Close(id: nat, gcd: nat)
      requires Valid() && Busy() && Inv(Snap(true), TheCast(id)) && id < |lives| && lives[id].stage.Finishing?
      modifies `casting, `recovery, `lives
      ensures Valid() && Inv(Snap(true), Nobody) && casting == None && recovery == gcd
      ensures lives == old(lives[id := lives[id].(stage := Over)])
    {
      hide Inv;
      OverKeeps(Snap(true), id);
      recovery := gcd;
      casting := None;
      lives := lives[id := lives[id].(stage := Over)];
    }

    /** `operator()` and `PreAction`, for a tick of a channel. */
    method TickBegins(e: Event)
      requires Valid() && Busy() && queue[now][0] == e && e.Channel? && !e.post && Inv(Snap(false), Nobody)
      modifies `queue, `casting, `recovery, `made, `calls, `lives
      ensures Valid() && Busy() && Inv(Snap(true), Nobody) && Progress(e)
      ensures RunsTick(old(Me(true)), e, script(now, old(calls)), Me(true))
    {
      hide Inv;
      hide Append;
      hide DropFront;
      hide Load;
      ghost var w := Snap(false);
      TickSpell(w);
      if casting != Some(e.parent) {
        TookStale(w);
        assert Snap(true) == Took(w);
        return;
      }
      TookTick(w);
      assert Snap(true) == Took(w);
      var r := CallNext(false, TheTick(e.parent, e.tick));
      hide Called;
      PreparedKeeps(Snap(true), e.parent, e.tick, e.spell);
      AppendLoad(queue, now, now, Channel(e.parent, e.spell, e.tick, true));
      AddEvent(Channel(e.parent, e.spell, e.tick, true), 0, true);
    }

    /** `operator()` and `PostAction`, for a tick of a channel. */
    method TickEnds(e: Event)
      requires Valid() && Busy() && queue[now][0] == e && e.Channel? && e.post && Inv(Snap(false), Nobody)
      modifies `queue, `casting, `recovery, `made, `calls, `lives
      ensures Valid() && Busy() && Inv(Snap(true), Nobody) && Progress(e)
      ensures RunsTick(old(Me(true)), e, script(now, old(calls)), Me(true))
    {
      hide Inv;
      hide Append;
      hide DropFront;
      hide Load;
      ghost var w := Snap(false);
      TickSpell(w);
      if casting != Some(e.parent) {
        TookStale(w);
        assert Snap(true) == Took(w);
        return;
      }
      TookTicked(w);
      lives := Ticked(w, e.parent).lives;
      assert Snap(true) == Ticked(w, e.parent);
      var r := CallNext(true, Nobody);
    }

    /** An event of another kind: all that it does here is what its scripts do. */
    method OtherRuns(e: Event)
      requires Valid() && Busy() && queue[now][0] == e && e.Other? && Inv(Snap(false), Nobody)
      modifies `queue, `casting, `recovery, `made, `calls, `lives
      ensures Valid() && Busy() && Inv(Snap(true), Nobody) && Progress(e)
      ensures Me(true) == Called(old(Me(true)), script(now, old(calls)).acts)
    {
      hide Inv;
      hide DropFront;
      hide Load;
      TookOther(Snap(false));
      assert Snap(true) == Took(Snap(false));
      var r := CallNext(false, Nobody);
    }

    /** One round of `ProcessEvent`: the front event of the current instant runs and is taken off. */
    method RunFront()
      requires Valid() && Busy() && Inv(Snap(false), Nobody)
      modifies `queue, `casting, `recovery, `cooldowns, `made, `calls, `lives
      ensures Valid() && Inv(Snap(false), Nobody) && Turn(script, old(Me(false)), Me(false))
      ensures Noise() < old(Noise())
        || (Noise() == old(Noise()) && (Busy() ==> Load(queue[now]) < Load(old(queue)[now])))
    {
      hide Inv;
      hide Weight;
      hide Begins;
      hide Ends;
      hide RunsTick;
      hide Called;
      hide Sane;
      var e := queue[now][0];
      match e {
        case Cast(_, _, post, _) =>
          if post {
            CastEnds(e);
          } else {
            CastBegins(e);
          }
        case Channel(_, _, _, post) =>
          if post {
            TickEnds(e);
          } else {
            TickBegins(e);
          }
        case Other => OtherRuns(e);
      }
      Pop();
    }

    /** The event in hand is taken off. */
    method Pop()
      requires Busy()
      modifies `queue
      ensures Snap(false) == old(Snap(true))
      ensures Busy() ==> old(Load(queue[now])) == old(Weight(queue[now][0])) + Load(queue[now])
    {
      LoadFront(queue[now]);
      if |queue[now]| == 1 {
        queue := queue - {now};
      } else {
        queue := queue[now := queue[now][1..]];
      }
    }

    /** `ProcessEvent`: runs every event that is due; or, if none is, moves the clock to the next one, or as far as
        the player is busy. */
    method ProcessEvent(available: nat) returns (ran: bool)
      requires Valid() && Inv(Snap(false), Nobody)
      modifies this
      ensures Valid() && Inv(Snap(false), Nobody) && now >= old(now)
      ensures Processed(script, old(Me(false)), available, ran, Me(false))
    {
      hide Inv;
      hide Turn;
      hide Load;
      hide Sane;
      ghost var ps := [Me(false)];
      while queue != map[]
        invariant Valid() && Inv(Snap(false), Nobody) && now == old(now)
        invariant |ps| > 0 && ps[0] == old(Me(false)) && ps[|ps| - 1] == Me(false) && AllTurns(script, ps)
        invariant now !in queue ==> |ps| == 1
        decreases Noise(), if now in queue then Load(queue[now]) + 1 else 0
      {
        var t := First(queue);
        Due(Snap(false));
        if t > now {
          break;
        }
        RunFront();
        Due(Snap(false));
        ps := ps + [Me(false)];
        assert AllTurns(script, ps);
        var more := MoreDue();
        if !more {
          return true;
        }
      }
      MoveClock(available);
      return false;
    }

    /** Whether the next event is due now. */
    method MoreDue() returns (more: bool)
      requires Inv(Snap(false), Nobody)
      ensures more <==> now in queue
    {
      Due(Snap(false));
      if queue == map[] {
        return false;
      }
      var t := First(queue);
      more := t <= now;
    }

    /** The clock moves on to the next event, or by the time available if that is less. */
    method MoveClock(available: nat)
      requires Valid() && Inv(Snap(false), Nobody) && now !in queue
      modifies `now, `calls
      ensures Valid() && Inv(Snap(false), Nobody) && Reached(old(now), available, queue, now) && now >= old(now)
      ensures calls == if now > old(now) then 0 else old(calls)
    {
      hide Inv;
      var next := now + available;
      if queue != map[] {
        var t := First(queue);
        next := if available != 0 && next < t then next else t;
        Due(Snap(false));
      }
      ghost var w := Snap(false);
      ClockMoves(w, next);
      if next > now {
        calls := 0;
      }
      now := next;
      assert Snap(false) == w.(now := next);
    }

    /** `Get_SpellCooldown(0)`: how long until the global cooldown is over. */
    function Available(): (d: nat)
      reads `now, `recovery
      ensures d == 0 <==> recovery <= now
    {
      if recovery > now then recovery - now else 0
    }

    /** One round of the main loop: whenever the player is idle then, the scripts are asked what to do. */
    method OneRound()
      requires Valid() && Inv(Snap(false), Nobody)
      modifies this
      ensures Valid() && Inv(Snap(false), Nobody) && Round(script, old(Me(false)), Me(false))
    {
      hide Inv;
      hide Processed;
      hide AfterAct;
      var ran := ProcessEvent(Available());
      ghost var m := Me(false);
      if IsIdle() {
        var r := NextRoll();
        Call(r.acts, false, Nobody);
      }
      assert RoundBy(script, old(Me(false)), ran, m, Me(false));
    }

    /** The main loop, for `rounds` rounds. */
    method RunAll(rounds: nat) returns (ghost ps: seq<Player>)
      requires Valid() && Inv(Snap(false), Nobody)
      modifies this
      ensures Valid() && Inv(Snap(false), Nobody)
      ensures |ps| == rounds + 1 && ps[0] == old(Me(false)) && ps[rounds] == Me(false)
      ensures forall i :: 0 <= i < rounds ==> Round(script, ps[i], ps[i + 1])
      ensures forall id :: 0 <= id < |lives| && lives[id].stage.Over? && lives[id].begun ==>
                lives[id].posts == (if lives[id].stopped then 0 else 1)
                && (lives[id].spell.channel && !lives[id].stopped ==> |lives[id].ticks| == lives[id].spell.ticks)
    {
      hide Inv;
      hide Round;
      ps := [Me(false)];
      for i := 0 to rounds
        invariant Valid() && Inv(Snap(false), Nobody)
        invariant |ps| == i + 1 && ps[0] == old(Me(false)) && ps[i] == Me(false)
        invariant forall j :: 0 <= j < i ==> Round(script, ps[j], ps[j + 1])
      {
        OneRound();
        ps := ps + [Me(false)];
      }
      forall id | 0 <= id < |lives| && lives[id].stage.Over? && lives[id].begun
        ensures lives[id].posts == (if lives[id].stopped then 0 else 1)
        ensures lives[id].spell.channel && !lives[id].stopped ==> |lives[id].ticks| == lives[id].spell.ticks
      {
        CompletedOnce(Snap(false), id);
        if lives[id].spell.channel && !lives[id].stopped { AllTicksFirst(Snap(false), id); }
      }
    }

    constructor (script: (nat, nat) -> Roll, ghost noisy: nat -> nat)
      requires forall t: nat, n: nat :: Sane(script(t, n)) && (n >= noisy(t) ==> Quiet(script(t, n).acts))
      ensures Valid() && Inv(Snap(false), Nobody) && this.script == script
      ensures Me(false) == Player(World(0, map[], None, []), 0, map[], 0)
    {
      this.script, this.noisy := script, noisy;
      now, queue, casting, recovery, cooldowns, made, calls := 0, map[], None, 0, map[], 0, 0;
      lives := [];
    }
  }

  predicate SameOrStopped(l: Life, k: Life) { k == l || StopsOne(l, k) }

  lemma AppendLoad(q: Queue<Event>, now: nat, t: nat, e: Event)
    requires now in q
    ensures now in Append(q, t, e) && Load(Append(q, t, e)[now]) == Load(q[now]) + if t == now then Weight(e) else 0
  {
    if t == now { LoadMore(q[now], e); }
  }

  lemma TickSpell(w: World)
    requires Inv(w, Nobody) && HasFront(w) && Front(w).Channel?
    ensures Front(w).parent < |w.lives| && w.lives[Front(w).parent].spell == Front(w).spell
  {
    assert At(w.q, w.now, 0, Front(w));
  }

  lemma Due(w: World)
    requires Inv(w, Nobody)
    ensures forall t :: t in w.q ==> w.now <= t && w.q[t] != []
  {}
}
