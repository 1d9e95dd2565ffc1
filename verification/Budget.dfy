/** A weighted semaphore with a queue of waiters: how the producer bounds the bytes it buffers. */
module Budget {
  import opened Prelude
  import opened Sums

  datatype Waiter = Waiter(ticket: nat, n: nat)

  /** `held` says, for everyone granted and not yet released, how much they hold. */
  datatype Permits = Permits(capacity: nat, available: nat, queue: seq<Waiter>, held: map<nat, nat>)

  function Full(capacity: nat): Permits {
    Permits(capacity, capacity, [], map[])
  }

  function Grant(p: Permits, w: Waiter): Permits
    requires w.n <= p.available
  {
    p.(available := p.available - w.n, held := p.held[w.ticket := w.n])
  }

  /** Granted at once when there is enough, ahead of anyone waiting; queued otherwise. Asking for more
      than the capacity is refused. */
  function Acquire(p: Permits, w: Waiter): Permits {
    if w.n > p.capacity then p
    else if p.available >= w.n then Grant(p, w)
    else p.(queue := p.queue + [w])
  }

  /** Grants from the front of the queue for as long as there is enough. */
  function Pump(p: Permits): Permits
    decreases |p.queue|
  {
    if p.queue == [] || p.available < p.queue[0].n then p
    else Pump(Grant(p.(queue := p.queue[1..]), p.queue[0]))
  }

  /** The holder gives back what it asked for; nothing checks that it still held it. */
  function Release(p: Permits, w: Waiter): Permits {
    Pump(p.(available := p.available + w.n, held := p.held - {w.ticket}))
  }

  ghost predicate Holds(p: Permits, w: Waiter) {
    w.ticket in p.held && p.held[w.ticket] == w.n
  }

  class Semaphore {
    const capacity: nat
    var available: nat
    var queue: seq<Waiter>
    ghost var held: map<nat, nat>

    ghost function Value(): Permits
      reads this
    {
      Permits(capacity, available, queue, held)
    }

    constructor (capacity: nat)
      ensures this.capacity == capacity && Value() == Full(capacity)
    {
      this.capacity := capacity;
      available, queue, held := capacity, [], map[];
    }

    method Take(w: Waiter) returns (granted: Option<bool>)
      modifies this
      ensures Value() == Acquire(old(Value()), w)
      ensures granted == if w.n > capacity then None else Some(old(available) >= w.n)
    {
      if w.n > capacity {
        return None;
      }
      if available >= w.n {
        available := available - w.n;
        held := held[w.ticket := w.n];
        return Some(true);
      }
      queue := queue + [w];
      return Some(false);
    }

    method Give(w: Waiter)
      modifies this
      ensures Value() == Release(old(Value()), w)
    {
      available := available + w.n;
      held := held - {w.ticket};
      PumpQueue();
    }

    method PumpQueue()
      modifies this
      ensures Value() == Pump(old(Value()))
    {
      while queue != []
        invariant Pump(Value()) == Pump(old(Value()))
        decreases |queue|
      {
        var next := queue[0];
        if available < next.n {
          break;
        }
        queue := queue[1..];
        available := available - next.n;
        held := held[next.ticket := next.n];
      }
    }
  }

  // ------------------------------------------------------------- invariants

  ghost predicate Tickets(p: Permits) {
    && (forall i :: 0 <= i < |p.queue| ==> p.queue[i].ticket !in p.held && p.queue[i].n <= p.capacity)
    && (forall i, j :: 0 <= i < j < |p.queue| ==> p.queue[i].ticket != p.queue[j].ticket)
  }

  /** What is free and what is held make up the capacity. */
  ghost predicate Conserved(p: Permits) {
    p.available + Total(p.held) == p.capacity
  }

  /** Nobody waits who could be served: the first in line is asking for more than there is. */
  ghost predicate HeadWaits(p: Permits) {
    p.queue != [] ==> p.available < p.queue[0].n
  }

  ghost predicate Sound(p: Permits) {
    Tickets(p) && Conserved(p) && HeadWaits(p)
  }

  lemma GrantConserves(p: Permits, w: Waiter)
    requires Conserved(p) && w.n <= p.available && w.ticket !in p.held
    ensures Conserved(Grant(p, w))
  {
    TotalWithout(Grant(p, w).held, w.ticket);
    assert Grant(p, w).held - {w.ticket} == p.held;
  }

  lemma {:induction false} PumpIsSound(p: Permits)
    requires Tickets(p) && Conserved(p)
    ensures Sound(Pump(p))
    decreases |p.queue|
  {
    if p.queue != [] && p.available >= p.queue[0].n {
      var rest := p.(queue := p.queue[1..]);
      GrantConserves(rest, p.queue[0]);
      PumpIsSound(Grant(rest, p.queue[0]));
    }
  }

  /** What is held once these waiters were granted, one after the other. */
  function HeldAfter(held: map<nat, nat>, ws: seq<Waiter>): map<nat, nat>
    decreases |ws|
  {
    if ws == [] then held else HeldAfter(held[ws[0].ticket := ws[0].n], ws[1..])
  }

  /** How many waiters a pump grants. */
  function Served(p: Permits): (k: nat)
    ensures k <= |p.queue|
    decreases |p.queue|
  {
    if p.queue == [] || p.available < p.queue[0].n then 0
    else 1 + Served(Grant(p.(queue := p.queue[1..]), p.queue[0]))
  }

  lemma SliceShift(ws: seq<Waiter>, k: nat)
    requires 1 <= k <= |ws|
    ensures ws[1..][k - 1..] == ws[k..] && ws[1..][..k - 1] == ws[..k][1..] && ws[..k][0] == ws[0]
  {
  }

  lemma HeldAfterFirst(held: map<nat, nat>, ws: seq<Waiter>, k: nat)
    requires 1 <= k <= |ws|
    ensures HeldAfter(held, ws[..k]) == HeldAfter(held[ws[0].ticket := ws[0].n], ws[1..][..k - 1])
  {
    SliceShift(ws, k);
  }

  function Serve(p: Permits): Permits
    requires p.queue != [] && p.available >= p.queue[0].n
  {
    Grant(p.(queue := p.queue[1..]), p.queue[0])
  }

  lemma PumpStep(p: Permits)
    requires p.queue != [] && p.available >= p.queue[0].n
    ensures Pump(p) == Pump(Serve(p)) && Served(p) == 1 + Served(Serve(p))
  {
  }

  /** `q` is `p` with its first `k` waiters served. */
  ghost predicate ServedFirst(p: Permits, k: nat, q: Permits) {
    k <= |p.queue| && q.queue == p.queue[k..] && q.held == HeldAfter(p.held, p.queue[..k])
  }

  lemma ServedOneMore(p: Permits, k: nat, q: Permits)
    requires p.queue != [] && p.available >= p.queue[0].n && ServedFirst(Serve(p), k, q)
    ensures ServedFirst(p, k + 1, q)
  {
    HeldAfterFirst(p.held, p.queue, k + 1);
    SliceShift(p.queue, k + 1);
  }

  lemma NoneServed(p: Permits)
    ensures ServedFirst(p, 0, p)
  {
    assert p.queue[..0] == [] && p.queue[0..] == p.queue;
  }

  /** The waiters granted by a release are the first in line, in that order, and hold what they asked for. */
  lemma {:induction false} PumpServesInOrder(p: Permits)
    ensures ServedFirst(p, Served(p), Pump(p))
    decreases |p.queue|
  {
    if p.queue != [] && p.available >= p.queue[0].n {
      PumpStep(p);
      PumpServesInOrder(Serve(p));
      ServedOneMore(p, Served(p) - 1, Pump(p));
    } else {
      NoneServed(p);
    }
  }

  ghost predicate Named(ws: seq<Waiter>, t: nat) {
    exists i :: 0 <= i < |ws| && ws[i].ticket == t
  }

  lemma {:induction false} HeldAfterAt(held: map<nat, nat>, ws: seq<Waiter>, t: nat)
    ensures t in HeldAfter(held, ws) <==> t in held || Named(ws, t)
    ensures t in held && !Named(ws, t) ==> HeldAfter(held, ws)[t] == held[t]
    ensures Named(ws, t) ==> Waiter(t, HeldAfter(held, ws)[t]) in ws
    decreases |ws|
  {
    if ws != [] {
      HeldAfterAt(held[ws[0].ticket := ws[0].n], ws[1..], t);
      if Named(ws[1..], t) {
        var i :| 0 <= i < |ws| - 1 && ws[1..][i].ticket == t;
        assert ws[i + 1].ticket == t;
      } else if Named(ws, t) {
        var i :| 0 <= i < |ws| && ws[i].ticket == t;
        assert i > 0 ==> ws[1..][i - 1].ticket == t;
      }
    }
  }

  lemma AcquireIsSound(p: Permits, w: Waiter)
    requires Sound(p) && w.ticket !in p.held && forall i :: 0 <= i < |p.queue| ==> p.queue[i].ticket != w.ticket
    ensures Sound(Acquire(p, w))
  {
    if w.n <= p.available { GrantConserves(p, w); }
  }

  lemma ReleaseIsSound(p: Permits, w: Waiter)
    requires Sound(p) && Holds(p, w)
    ensures Sound(Release(p, w))
  {
    TotalWithout(p.held, w.ticket);
    PumpIsSound(p.(available := p.available + w.n, held := p.held - {w.ticket}));
  }

  /** What a release does to one other ticket: a holder goes on holding, and whoever holds after it
      held before or was waiting. */
  lemma ReleaseAt(p: Permits, w: Waiter, t: nat)
    requires Tickets(p) && t != w.ticket
    ensures t in p.held ==> Holds(Release(p, w), Waiter(t, p.held[t]))
    ensures t in Release(p, w).held && t !in p.held ==> Waiter(t, Release(p, w).held[t]) in p.queue
  {
    var q := p.(available := p.available + w.n, held := p.held - {w.ticket});
    PumpServesInOrder(q);
    HeldAfterAt(q.held, q.queue[..Served(q)], t);
    if Named(q.queue[..Served(q)], t) {
      var i :| 0 <= i < Served(q) && q.queue[..Served(q)][i].ticket == t;
      assert q.queue[i].ticket == t;
    }
  }

  /** The ticket given back is held no more, and the queue only gets shorter, from the front. */
  lemma ReleaseShape(p: Permits, w: Waiter)
    requires Tickets(p) && Holds(p, w)
    ensures w.ticket !in Release(p, w).held
    ensures |Release(p, w).queue| <= |p.queue| && Release(p, w).queue == p.queue[|p.queue| - |Release(p, w).queue|..]
  {
    var q := p.(available := p.available + w.n, held := p.held - {w.ticket});
    PumpServesInOrder(q);
    HeldAfterAt(q.held, q.queue[..Served(q)], w.ticket);
  }

  /** Nobody waits for a budget nobody holds. */
  lemma NothingHeldNobodyWaits(p: Permits)
    requires Sound(p) && p.held == map[]
    ensures p.queue == []
  {
  }

  /** Whoever holds the whole capacity holds it alone. */
  lemma WholeBudgetIsAlone(p: Permits, ticket: nat, other: nat)
    requires Sound(p) && ticket in p.held && p.held[ticket] == p.capacity && other in p.held && other != ticket
    ensures p.held[other] == 0
  {
    TotalWithout(p.held, ticket);
    TotalWithout(p.held - {ticket}, other);
  }
}
