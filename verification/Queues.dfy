/**
  Events queued by the time at which they are due, first in first out at each instant, and what becomes of them.
 */
module Queues {
  type Queue<+E> = map<nat, seq<E>>

  /** `AddEvent`, at an absolute time. */
  function Append<E>(q: Queue<E>, t: nat, e: E): Queue<E> { q[t := (if t in q then q[t] else []) + [e]] }

  /** The first event of the instant `t` is gone, and with the last one the instant. */
  function DropFront<E>(q: Queue<E>, t: nat): Queue<E>
    requires t in q && q[t] != []
  {
    if |q[t]| == 1 then q - {t} else q[t := q[t][1..]]
  }

  ghost predicate At<E>(q: Queue<E>, t: nat, i: int, e: E) { t in q && 0 <= i < |q[t]| && q[t][i] == e }

  ghost predicate Pending<E>(q: Queue<E>, t: nat, e: E) { exists i :: At(q, t, i, e) }

  /** Both are due at `t`, and `e` comes first. */
  ghost predicate Before<E>(q: Queue<E>, t: nat, e: E, f: E) {
    exists i, j :: i < j && At(q, t, i, e) && At(q, t, j, f)
  }

  /** No time of the queue has passed, and none is empty. */
  ghost predicate Timely<E>(now: nat, q: Queue<E>) { forall t :: t in q ==> now <= t && q[t] != [] }

  lemma AppendAt<E(!new)>(q: Queue<E>, t: nat, e: E)
    ensures forall u, i, f :: At(q, u, i, f) ==> At(Append(q, t, e), u, i, f)
    ensures var n := if t in q then |q[t]| else 0;
      At(Append(q, t, e), t, n, e) && forall u, i, f :: At(Append(q, t, e), u, i, f) ==>
        At(q, u, i, f) || (u == t && i == n && f == e)
  {}

  lemma DropAt<E(!new)>(q: Queue<E>, t: nat)
    requires t in q && q[t] != []
    ensures forall u, i, f :: At(q, u, i, f) && (u != t || i > 0) ==>
      At(DropFront(q, t), u, if u == t then i - 1 else i, f)
    ensures forall u, i, f :: At(DropFront(q, t), u, i, f) ==> At(q, u, if u == t then i + 1 else i, f)
  {}

  lemma KeptPending<E(!new)>(q: Queue<E>, r: Queue<E>, t: nat, u: nat, e: E)
    requires t in q && q[t] != [] && r == DropFront(q, t) && q[t][0] != e
    ensures Pending(q, u, e) ==> Pending(r, u, e)
  {
    DropAt(q, t);
    hide DropFront;
    if Pending(q, u, e) {
      var i :| At(q, u, i, e);
      assert At(r, u, if u == t then i - 1 else i, e);
    }
  }

  lemma KeptBefore<E(!new)>(q: Queue<E>, r: Queue<E>, t: nat, u: nat, e: E, f: E)
    requires t in q && q[t] != [] && r == DropFront(q, t) && q[t][0] != e
    ensures Before(q, u, e, f) ==> Before(r, u, e, f)
  {
    DropAt(q, t);
    hide DropFront;
    if Before(q, u, e, f) {
      var i, j :| i < j && At(q, u, i, e) && At(q, u, j, f);
      assert At(r, u, if u == t then i - 1 else i, e) && At(r, u, if u == t then j - 1 else j, f);
    }
  }

  lemma AppendTimely<E(!new)>(now: nat, q: Queue<E>, t: nat, e: E)
    requires Timely(now, q) && now <= t
    ensures Timely(now, Append(q, t, e))
  {}

  // ----------------------------------------------------------------------------- the order of events

  /** Every event gets a ticket when it is added: its number in `posted`, which says when it is due. */
  type Tickets = map<nat, seq<nat>>

  /** The tickets at each instant are those of its events, in the order in which they were added. */
  ghost predicate Numbered<E>(queue: Queue<E>, tickets: Tickets, posted: seq<nat>) {
    && tickets.Keys == queue.Keys
    && (forall t :: t in queue ==> |tickets[t]| == |queue[t]|)
    && (forall t, i :: t in tickets && 0 <= i < |tickets[t]| ==> tickets[t][i] < |posted| && posted[tickets[t][i]] == t)
    && (forall t, i, j :: t in tickets && 0 <= i < j < |tickets[t]| ==> tickets[t][i] < tickets[t][j])
  }

  /** Events have run when they were due, in order of time, and at each instant in the order they were added. */
  ghost predicate InOrder(now: nat, tickets: Tickets, posted: seq<nat>, ran: seq<(nat, nat)>) {
    && (forall i :: 0 <= i < |ran| ==> ran[i].0 <= now && ran[i].1 < |posted| && posted[ran[i].1] == ran[i].0)
    && (forall i, j :: 0 <= i < j < |ran| ==> ran[i].0 < ran[j].0 || (ran[i].0 == ran[j].0 && ran[i].1 < ran[j].1))
    && (forall i, k :: 0 <= i < |ran| && ran[i].0 in tickets && 0 <= k < |tickets[ran[i].0]| ==>
          ran[i].1 < tickets[ran[i].0][k])
  }

  /** No event is lost: each has run or is waiting. */
  ghost predicate NoneLost(tickets: Tickets, posted: seq<nat>, ran: seq<(nat, nat)>) {
    forall n :: 0 <= n < |posted| ==> (posted[n], n) in ran || (posted[n] in tickets && n in tickets[posted[n]])
  }

  ghost predicate Ordered<E>(now: nat, queue: Queue<E>, tickets: Tickets, posted: seq<nat>, ran: seq<(nat, nat)>) {
    Numbered(queue, tickets, posted) && InOrder(now, tickets, posted, ran) && NoneLost(tickets, posted, ran)
  }

  function Ticketed(tickets: Tickets, t: nat, n: nat): Tickets {
    tickets[t := (if t in tickets then tickets[t] else []) + [n]]
  }

  lemma OrderedAppend<E(!new)>(now: nat, queue: Queue<E>, tickets: Tickets, posted: seq<nat>, ran: seq<(nat, nat)>,
                               t: nat, e: E)
    requires Ordered(now, queue, tickets, posted, ran)
    ensures Ordered(now, Append(queue, t, e), Ticketed(tickets, t, |posted|), posted + [t], ran)
  {
    var s, p := Ticketed(tickets, t, |posted|), posted + [t];
    assert Numbered(Append(queue, t, e), s, p);
    assert InOrder(now, s, p, ran);
    forall n | 0 <= n < |p| ensures (p[n], n) in ran || (p[n] in s && n in s[p[n]]) {
      if n < |posted| {
        assert p[n] == posted[n];
        if posted[n] in tickets && n in tickets[posted[n]] { assert posted[n] in s && n in s[posted[n]]; }
      } else {
        assert s[t][|s[t]| - 1] == n;
      }
    }
  }

  function Popped(tickets: Tickets, t: nat): Tickets
    requires t in tickets && tickets[t] != []
  {
    if |tickets[t]| == 1 then tickets - {t} else tickets[t := tickets[t][1..]]
  }

  lemma RunNumbered<E(!new)>(now: nat, queue: Queue<E>, tickets: Tickets, posted: seq<nat>)
    requires Numbered(queue, tickets, posted) && now in queue && queue[now] != []
    ensures now in tickets && tickets[now] != [] && Numbered(DropFront(queue, now), Popped(tickets, now), posted)
  {}

  lemma RunInOrder<E>(now: nat, queue: Queue<E>, tickets: Tickets, posted: seq<nat>, ran: seq<(nat, nat)>)
    requires Numbered(queue, tickets, posted) && InOrder(now, tickets, posted, ran) && now in tickets
    requires tickets[now] != []
    ensures InOrder(now, Popped(tickets, now), posted, ran + [(now, tickets[now][0])])
  {}

  lemma RunNoneLost(now: nat, tickets: Tickets, posted: seq<nat>, ran: seq<(nat, nat)>)
    requires NoneLost(tickets, posted, ran) && now in tickets && tickets[now] != []
    ensures NoneLost(Popped(tickets, now), posted, ran + [(now, tickets[now][0])])
  {
    var n, s := tickets[now][0], Popped(tickets, now);
    var r := ran + [(now, n)];
    forall k | 0 <= k < |posted| ensures (posted[k], k) in r || (posted[k] in s && k in s[posted[k]]) {
      if (posted[k], k) in ran {
        assert (posted[k], k) in r;
      } else if posted[k] == now {
        if k == n {
          assert r[|ran|] == (now, n);
        } else {
          assert tickets[now] == [n] + tickets[now][1..];
        }
      }
    }
  }

  /** The front event of the current instant has run. */
  lemma OrderedRun<E(!new)>(now: nat, queue: Queue<E>, tickets: Tickets, posted: seq<nat>, ran: seq<(nat, nat)>)
    requires Ordered(now, queue, tickets, posted, ran) && now in queue && queue[now] != []
    ensures now in tickets && tickets[now] != []
    ensures Ordered(now, DropFront(queue, now), Popped(tickets, now), posted, ran + [(now, tickets[now][0])])
  {
    RunNumbered(now, queue, tickets, posted);
    RunInOrder(now, queue, tickets, posted, ran);
    RunNoneLost(now, tickets, posted, ran);
    hide Numbered;
    hide InOrder;
    hide NoneLost;
  }

  lemma OrderedLater<E(!new)>(now: nat, later: nat, queue: Queue<E>, tickets: Tickets, posted: seq<nat>,
                              ran: seq<(nat, nat)>)
    requires Ordered(now, queue, tickets, posted, ran) && now <= later
    ensures Ordered(later, queue, tickets, posted, ran)
  {}

  /** No event runs twice. */
  lemma RunsOnce<E(!new)>(now: nat, queue: Queue<E>, tickets: Tickets, posted: seq<nat>, ran: seq<(nat, nat)>, i: nat,
                          j: nat)
    requires Ordered(now, queue, tickets, posted, ran) && i < j < |ran|
    ensures ran[i].1 != ran[j].1
    ensures ran[i].0 in tickets ==> ran[i].1 !in tickets[ran[i].0]
  {
    assert ran[i].0 in tickets ==> forall k :: 0 <= k < |tickets[ran[i].0]| ==> tickets[ran[i].0][k] != ran[i].1;
  }

  /** What is added while the front event is in hand comes after it. */
  lemma DropLater<E(!new)>(q: Queue<E>, now: nat, t: nat, e: E)
    requires now in q && q[now] != []
    ensures var r := Append(q, t, e);
      now in r && r[now] != [] && r[now][0] == q[now][0] && DropFront(r, now) == Append(DropFront(q, now), t, e)
  {
    var r := Append(q, t, e);
    var a, b := DropFront(r, now), Append(DropFront(q, now), t, e);
    if t == now { assert (q[now] + [e])[1..] == q[now][1..] + [e]; }
    if t == now && |q[now]| == 1 { assert q[now][1..] + [e] == [] + [e]; }
    assert a.Keys == b.Keys;
    forall u | u in a ensures a[u] == b[u] {}
    assert a == b;
  }

  /** Where the clock goes: to the next event, or as far as the player is busy if that is less. */
  predicate Reached<E>(before: nat, available: nat, q: Queue<E>, now: nat) {
    if q == map[] then now == before + available
    else
      && before <= now && (forall t :: t in q ==> now <= t)
      && (now in q || (available != 0 && now == before + available)) && (available != 0 ==> now <= before + available)
  }

  /** The time of the first event. */
  method First<E>(q: Queue<E>) returns (t: nat)
    requires q != map[]
    ensures t in q && forall u :: u in q ==> t <= u
  {
    var times := q.Keys;
    t :| t in times;
    var rest := times - {t};
    while rest != {}
      invariant t in times && rest <= times && forall u :: u in times ==> u in rest || t <= u
      decreases |rest|
    {
      var u :| u in rest;
      t := if u < t then u else t;
      rest := rest - {u};
    }
  }
}
