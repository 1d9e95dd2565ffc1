/** Closing a producer session. The runner stops as soon as the session is closed and its queue empty, and
    a record that is admitted later is pushed all the same. Proved here: from exactly which closed
    sessions no continuation can leave a record behind, and that a record left behind is never taken. */
module Shutdown {
  import opened Prelude
  import opened Budget
  import opened Producer

  /** A runner that stopped left nothing in the queue. */
  ghost predicate NothingStranded(s: Session) {
    s.runner.Stopped? ==> s.items == []
  }

  /** Records asked for and not yet in the queue: they wait for budget, or were just granted it. */
  function Unpushed(s: Session): set<nat> {
    set t | t in s.asked && s.asked[t].Record? && !Tried(s, t)
  }

  /** The runner waits for the first record of a batch. */
  predicate AwaitsFirst(s: Session) {
    s.runner.Waiting? && s.handed.None? && s.batch == []
  }

  /** Every record is in the queue or beyond, or the only one that is not will be handed to the runner. */
  predicate SafeToClose(s: Session) {
    Unpushed(s) == {} || (AwaitsFirst(s) && |Unpushed(s)| <= 1)
  }

  // --------------------------------------------------- what a release passes on

  predicate IsRecord(asked: map<nat, Ask>, t: nat) { t in asked && asked[t].Record? }

  predicate IsClosing(asked: map<nat, Ask>, t: nat) { t in asked && asked[t].Closing? }

  ghost predicate NoRecords(asked: map<nat, Ask>, ws: seq<Waiter>) {
    forall i :: 0 <= i < |ws| ==> !IsRecord(asked, ws[i].ticket)
  }

  /** No record waits behind a close. */
  ghost predicate Orderly(asked: map<nat, Ask>, p: Permits) {
    && (forall i, j :: 0 <= i < j < |p.queue| && IsClosing(asked, p.queue[i].ticket) ==> !IsRecord(asked, p.queue[j].ticket))
    && (forall t :: t in p.held && IsClosing(asked, t) ==> NoRecords(asked, p.queue))
  }

  ghost predicate Known(p: Permits, t: nat) { t in p.held || Named(p.queue, t) }

  /** `q` is `p` once these gave back their share: the others hold it or wait for it as before, or were
      granted it now. */
  ghost predicate Passes(p: Permits, q: Permits, gone: set<nat>) {
    && (forall i :: 0 <= i < |q.queue| ==> q.queue[i] in p.queue)
    && (forall t :: t in q.held ==> t !in gone && Known(p, t))
    && (forall t :: t !in gone && Known(p, t) ==> Known(q, t))
  }

  lemma NamedSplit(ws: seq<Waiter>, k: nat, t: nat)
    requires k <= |ws| && Named(ws, t)
    ensures Named(ws[..k], t) || Named(ws[k..], t)
  {
    var i :| 0 <= i < |ws| && ws[i].ticket == t;
    if i < k { assert ws[..k][i].ticket == t; } else { assert ws[k..][i - k].ticket == t; }
  }

  lemma ReleaseKnows(p: Permits, w: Waiter, t: nat)
    requires Sound(p) && Holds(p, w) && t != w.ticket && Known(p, t)
    ensures Known(Release(p, w), t)
  {
    if t in p.held {
      ReleaseAt(p, w, t);
    } else {
      var q := p.(available := p.available + w.n, held := p.held - {w.ticket});
      PumpServesInOrder(q);
      HeldAfterAt(q.held, q.queue[..Served(q)], t);
      NamedSplit(q.queue, Served(q), t);
    }
  }

  lemma ReleasePasses(p: Permits, w: Waiter)
    requires Sound(p) && Holds(p, w)
    ensures Passes(p, Release(p, w), {w.ticket})
  {
    var q := Release(p, w);
    ReleaseShape(p, w);
    forall t | t in q.held ensures t !in {w.ticket} && Known(p, t) {
      ReleaseAt(p, w, t);
    }
    forall t | t !in {w.ticket} && Known(p, t) ensures Known(q, t) {
      ReleaseKnows(p, w, t);
    }
  }

  lemma ReleaseOrderly(asked: map<nat, Ask>, p: Permits, w: Waiter)
    requires Sound(p) && Holds(p, w) && Orderly(asked, p)
    ensures Orderly(asked, Release(p, w))
  {
    var q := Release(p, w);
    ReleaseShape(p, w);
    ReleaseIsSound(p, w);
    var n := |p.queue| - |q.queue|;
    assert forall j :: 0 <= j < |q.queue| ==> q.queue[j] == p.queue[n + j];
    assert forall k :: n <= k < |p.queue| ==> p.queue[k] == q.queue[k - n];
    forall t | t in q.held && IsClosing(asked, t) ensures NoRecords(asked, q.queue) {
      ReleaseAt(p, w, t);
      if t !in p.held {
        var i :| 0 <= i < |p.queue| && p.queue[i] == Waiter(t, q.held[t]);
        assert i < n;
      }
    }
  }

  ghost function TicketsOf(xs: seq<Item>): set<nat> {
    set x | x in xs :: x.ticket
  }

  lemma PassesThrough(p: Permits, q: Permits, r: Permits, first: nat, gone: set<nat>)
    requires Tickets(p) && first in p.held && Passes(p, q, {first}) && Passes(q, r, gone)
    ensures Passes(p, r, gone + {first})
  {
    forall i | 0 <= i < |r.queue| ensures r.queue[i] in p.queue {
      assert r.queue[i] in q.queue;
    }
    forall t | t in r.held ensures t !in gone + {first} && Known(p, t) {
      assert Known(q, t);
      KnownBefore(p, q, first, t);
    }
    forall t | t !in gone + {first} && Known(p, t) ensures Known(r, t) {
      assert Known(q, t);
    }
  }

  lemma KnownBefore(p: Permits, q: Permits, first: nat, t: nat)
    requires Tickets(p) && first in p.held && Passes(p, q, {first}) && Known(q, t)
    ensures t != first && Known(p, t)
  {
    if t !in q.held {
      var i :| 0 <= i < |q.queue| && q.queue[i].ticket == t;
      var j :| 0 <= j < |p.queue| && p.queue[j] == q.queue[i];
      assert p.queue[j].ticket == t;
    }
  }

  lemma {:induction false} ReleaseAllPasses(asked: map<nat, Ask>, p: Permits, xs: seq<Item>)
    requires Sound(p) && DistinctTickets(xs) && Orderly(asked, p)
    requires forall i :: 0 <= i < |xs| ==> Holds(p, Share(xs[i]))
    ensures Passes(p, ReleaseAll(p, xs), TicketsOf(xs)) && Orderly(asked, ReleaseAll(p, xs))
    decreases |xs|
  {
    if xs != [] {
      var w := Share(xs[0]);
      var q := Release(p, w);
      ReleaseIsSound(p, w);
      ReleasePasses(p, w);
      ReleaseOrderly(asked, p, w);
      forall i | 0 <= i < |xs| - 1 ensures Holds(q, Share(xs[1..][i])) {
        ReleaseAt(p, w, xs[i + 1].ticket);
      }
      ReleaseAllPasses(asked, q, xs[1..]);
      PassesThrough(p, q, ReleaseAll(p, xs), w.ticket, TicketsOf(xs[1..]));
      assert TicketsOf(xs) == TicketsOf(xs[1..]) + {w.ticket} by {
        assert xs == [xs[0]] + xs[1..];
      }
    } else {
      assert forall i :: 0 <= i < |p.queue| ==> p.queue[i] in p.queue;
    }
  }

  // ------------------------------------------------------------- admissions

  /** A record under this ticket is on its way to be settled. */
  ghost predicate Carried(s: Session, t: nat) {
    exists x :: Unsettled(s, x) && x.ticket == t
  }

  /** A record waits for budget, holds it or was pushed; pushed, it holds budget only until it settles. */
  ghost predicate Tracked(s: Session) {
    && (forall t :: t in s.asked && s.asked[t].Record? ==> Known(s.budget, t) || Tried(s, t))
    && (forall t :: t in s.budget.held && Tried(s, t) ==> Carried(s, t))
    && (forall i :: 0 <= i < |s.budget.queue| ==> !Tried(s, s.budget.queue[i].ticket))
  }

  ghost predicate Admissions(c: Config, s: Session) {
    && Tracked(s) && Orderly(s.asked, s.budget)
    && (!s.closed ==> forall t :: t in s.asked ==> !s.asked[t].Closing?)
    && (s.runner.Waiting? && s.batch != [] ==> c.lingers)
  }

  lemma TriedWasAsked(c: Config, s: Session, t: nat)
    requires Budgeted(c, s) && Tried(s, t)
    ensures t in s.asked && s.asked[t].Record?
  {
    var i :| 0 <= i < |s.pushed| && s.pushed[i].ticket == t;
  }

  lemma SameRecords(s: Session, t: Session)
    requires t.batches == s.batches && t.settled == s.settled && t.batch == s.batch && t.handed == s.handed && t.items == s.items
    ensures forall x :: Unsettled(t, x) <==> Unsettled(s, x)
  {
    assert Tail(t) == Tail(s);
  }

  /** Asking for a new ticket: it is granted at once or waits at the end. */
  lemma AskTracked(c: Config, s: Session, t: Session, ticket: nat, ask: Ask)
    requires Inv(c, s) && Tracked(s) && ticket !in s.asked && (ask.Record? ==> Sendable(c, ask.size))
    requires t == s.(asked := s.asked[ticket := ask], budget := Acquire(s.budget, Waiter(ticket, Amount(c, ask))), closed := t.closed)
    ensures Tracked(t)
  {
    var w := Waiter(ticket, Amount(c, ask));
    SameRecords(s, t);
    assert forall u :: Tried(t, u) <==> Tried(s, u);
    assert !Tried(s, ticket) by { if Tried(s, ticket) { TriedWasAsked(c, s, ticket); } }
    forall u | u in t.asked && t.asked[u].Record? ensures Known(t.budget, u) || Tried(t, u) {
      if u == ticket {
        assert w.n > s.budget.available ==> t.budget.queue[|s.budget.queue|].ticket == u;
      } else if Known(s.budget, u) {
        KnowsAfterAcquire(s.budget, w, u);
      }
    }
    forall u | u in t.budget.held && Tried(t, u) ensures Carried(t, u) {
      assert Carried(s, u);
      var x :| Unsettled(s, x) && x.ticket == u;
      assert Unsettled(t, x);
    }
  }

  lemma KnowsAfterAcquire(p: Permits, w: Waiter, t: nat)
    requires Known(p, t)
    ensures Known(Acquire(p, w), t)
  {
    if t !in p.held {
      var i :| 0 <= i < |p.queue| && p.queue[i].ticket == t;
      assert (p.queue + [w])[i].ticket == t;
    }
  }

  /** A close is granted at once only when nobody waits. */
  lemma AcquireOrderly(asked: map<nat, Ask>, p: Permits, ticket: nat, ask: Ask, n: nat)
    requires Sound(p) && Orderly(asked, p) && ticket !in asked
    requires forall i :: 0 <= i < |p.queue| ==> p.queue[i].ticket in asked
    requires forall t :: t in p.held ==> t in asked
    requires ask.Record? ==> forall t :: t in asked ==> !asked[t].Closing?
    requires ask.Closing? ==> n == p.capacity
    ensures Orderly(asked[ticket := ask], Acquire(p, Waiter(ticket, n)))
  {
  }

  lemma AskAdmissions(c: Config, s: Session, t: Session, ticket: nat, ask: Ask)
    requires Inv(c, s) && Admissions(c, s) && ticket !in s.asked && (ask.Record? ==> Sendable(c, ask.size) && !s.closed)
    requires t == s.(asked := s.asked[ticket := ask], budget := Acquire(s.budget, Waiter(ticket, Amount(c, ask))), closed := t.closed)
    requires t.closed == (s.closed || ask.Closing?)
    ensures Admissions(c, t)
  {
    AskTracked(c, s, t, ticket, ask);
    AcquireOrderly(s.asked, s.budget, ticket, ask, Amount(c, ask));
  }

  lemma PushTries(c: Config, s: Session, ticket: nat, u: nat)
    requires Enabled(c, s, Push(ticket))
    ensures Tried(Next(c, s, Push(ticket)), u) <==> Tried(s, u) || u == ticket
  {
    var t := Next(c, s, Push(ticket));
    if Tried(s, u) {
      var i :| 0 <= i < |s.pushed| && s.pushed[i].ticket == u;
      assert t.pushed[i].ticket == u;
    }
    assert t.pushed[|s.pushed|].ticket == ticket;
  }

  lemma PushCarries(c: Config, s: Session, ticket: nat, u: nat)
    requires RunnerFits(c, s) && Enabled(c, s, Push(ticket)) && (u == ticket || Carried(s, u))
    ensures Carried(Next(c, s, Push(ticket)), u)
  {
    var t := Next(c, s, Push(ticket));
    if u == ticket {
      PushedIsLast(c, s, ticket);
      assert Unsettled(t, Item(ticket, s.asked[ticket].size));
    } else {
      var y :| Unsettled(s, y) && y.ticket == u;
      PushKeepsTail(c, s, ticket, y);
    }
  }

  lemma PushAdmissions(c: Config, s: Session, ticket: nat)
    requires Inv(c, s) && Admissions(c, s) && Enabled(c, s, Push(ticket))
    ensures Admissions(c, Next(c, s, Push(ticket)))
  {
    var t := Next(c, s, Push(ticket));
    forall u ensures Tried(t, u) <==> Tried(s, u) || u == ticket {
      PushTries(c, s, ticket, u);
    }
    forall u | u in t.budget.held && Tried(t, u) ensures Carried(t, u) {
      PushCarries(c, s, ticket, u);
    }
  }

  lemma PushedIsLast(c: Config, s: Session, ticket: nat)
    requires RunnerFits(c, s) && Enabled(c, s, Push(ticket))
    ensures Tail(Next(c, s, Push(ticket))) == Tail(s) + [Item(ticket, s.asked[ticket].size)]
  {
  }

  lemma PushKeepsTail(c: Config, s: Session, ticket: nat, y: Item)
    requires RunnerFits(c, s) && Enabled(c, s, Push(ticket)) && Unsettled(s, y)
    ensures Unsettled(Next(c, s, Push(ticket)), y)
  {
    PushedIsLast(c, s, ticket);
    var t := Next(c, s, Push(ticket));
    if y !in Tail(s) {
      var k :| 0 <= k < |s.batches| && k !in s.settled && y in s.batches[k];
      assert y in t.batches[k];
    }
  }

  /** Giving back a whole budget leaves the records as they are. */
  lemma GiveBackAdmissions(c: Config, s: Session, ticket: nat)
    requires Inv(c, s) && Admissions(c, s) && ticket in s.budget.held && ticket in s.asked && !s.asked[ticket].Record?
    ensures Admissions(c, GiveBack(c, s, ticket))
  {
    var w := Waiter(ticket, c.maxBufferedBytes);
    ReleasePasses(s.budget, w);
    ReleaseOrderly(s.asked, s.budget, w);
    PassedTracked(c, s, GiveBack(c, s, ticket), {ticket});
  }

  lemma PassedTracked(c: Config, s: Session, t: Session, gone: set<nat>)
    requires Inv(c, s) && Tracked(s) && Passes(s.budget, t.budget, gone) && t == s.(budget := t.budget)
    requires forall u :: u in gone && u in s.asked && s.asked[u].Record? ==> Tried(s, u)
    ensures Tracked(t)
  {
    SameRecords(s, t);
    assert forall u :: Tried(t, u) <==> Tried(s, u);
    forall i | 0 <= i < |t.budget.queue| ensures !Tried(t, t.budget.queue[i].ticket) {
      assert t.budget.queue[i] in s.budget.queue;
    }
    forall u | u in t.budget.held && Tried(t, u) ensures Carried(t, u) {
      assert u in s.budget.held || Named(s.budget.queue, u);
      var x :| Unsettled(s, x) && x.ticket == u;
      assert Unsettled(t, x);
    }
  }

  /** Moving records along the line leaves each of them unsettled. */
  lemma StaysUnsettled(s: Session, t: Session, x: Item)
    requires SameUnsettled(s, t) && Unsettled(s, x) && forall k :: k in s.settled ==> k < |s.batches|
    ensures Unsettled(t, x)
  {
    var n := |s.batches|;
    if x in Tail(s) {
      TailShrinks(s, t);
      if x !in Tail(t) {
        var i := FlattenWhere(t.batches[n..], x);
        assert t.batches[n + i] == t.batches[n..][i];
      }
    } else {
      var k :| 0 <= k < n && k !in s.settled && x in s.batches[k];
      assert t.batches[k] == t.batches[..n][k] == s.batches[k];
    }
  }

  lemma {:induction false} FlattenWhere(bs: seq<seq<Item>>, x: Item) returns (i: nat)
    requires x in Flatten(bs)
    ensures i < |bs| && x in bs[i]
    decreases |bs|
  {
    var n := |bs| - 1;
    if x in bs[n] {
      i := n;
    } else {
      i := FlattenWhere(bs[..n], x);
    }
  }

  lemma MovingTracked(s: Session, t: Session)
    requires SameUnsettled(s, t) && Tracked(s) && forall k :: k in s.settled ==> k < |s.batches|
    ensures Tracked(t)
  {
    assert forall u :: Tried(t, u) <==> Tried(s, u);
    forall u | u in t.budget.held && Tried(t, u) ensures Carried(t, u) {
      var x :| Unsettled(s, x) && x.ticket == u;
      StaysUnsettled(s, t, x);
    }
  }

  lemma MoveLingers(c: Config, s: Session, e: Event)
    requires RunnerFits(c, s) && Enabled(c, s, e) && Moves(e) && (s.runner.Waiting? && s.batch != [] ==> c.lingers)
    ensures var t := Next(c, s, e); t.closed == s.closed && (t.runner.Waiting? && t.batch != [] ==> c.lingers)
  {
  }

  lemma MoveTracked(c: Config, s: Session, e: Event)
    requires Inv(c, s) && Sequenced(c, s) && Tracked(s) && Enabled(c, s, e) && Moves(e)
    ensures Tracked(Next(c, s, e))
  {
    StepMoves(c, s, e);
    StepInOrder(c, s, e);
    MovingTracked(s, Next(c, s, e));
  }

  lemma MoveAdmissions(c: Config, s: Session, e: Event)
    requires Inv(c, s) && Sequenced(c, s) && Admissions(c, s) && Enabled(c, s, e) && Moves(e)
    ensures Admissions(c, Next(c, s, e))
  {
    StepMoves(c, s, e);
    MoveLingers(c, s, e);
    MoveTracked(c, s, e);
  }

  lemma CloseEndsAdmissions(c: Config, s: Session, ticket: nat)
    requires Inv(c, s) && Sequenced(c, s) && Admissions(c, s) && Enabled(c, s, CloseEnds(ticket))
    ensures Admissions(c, Next(c, s, CloseEnds(ticket)))
  {
    var t := GiveBack(c, s, ticket);
    GiveBackAdmissions(c, s, ticket);
    AwakenMoves(c, t);
    MovingTracked(t, Awaken(t));
  }

  lemma SettleAdmissions(c: Config, s: Session, k: nat)
    requires Inv(c, s) && Admissions(c, s) && Enabled(c, s, Settle(k))
    ensures Admissions(c, Next(c, s, Settle(k)))
  {
    var t := Next(c, s, Settle(k));
    var xs := s.batches[k];
    BatchIsDistinct(s, k);
    forall i | 0 <= i < |xs| ensures Holds(s.budget, Share(xs[i])) && Tried(s, xs[i].ticket) {
      assert xs[i] in xs;
      assert Unsettled(s, xs[i]);
      UnsettledWasPushed(s, xs[i]);
    }
    ReleaseAllPasses(s.asked, s.budget, xs);
    var paid := s.(budget := t.budget);
    PassedTracked(c, s, paid, TicketsOf(xs));
    SettleTracked(s, paid, t, k);
  }

  lemma SettleTracked(s: Session, paid: Session, t: Session, k: nat)
    requires Tracked(paid) && k < |s.batches| && paid == s.(budget := paid.budget)
    requires t == paid.(settled := s.settled + {k}, runner := t.runner)
    requires forall u :: u in paid.budget.held ==> u !in TicketsOf(s.batches[k])
    ensures Tracked(t)
  {
    assert forall u :: Tried(t, u) <==> Tried(paid, u);
    forall u | u in t.budget.held && Tried(t, u) ensures Carried(t, u) {
      var x :| Unsettled(paid, x) && x.ticket == u;
      assert Tail(t) == Tail(paid);
      if x !in Tail(t) {
        var j :| 0 <= j < |s.batches| && j !in s.settled && x in s.batches[j];
        assert j != k && x in t.batches[j];
      }
      assert Unsettled(t, x);
    }
  }

  lemma StepAdmissions(c: Config, s: Session, e: Event)
    requires Inv(c, s) && Sequenced(c, s) && Admissions(c, s) && Enabled(c, s, e)
    ensures Admissions(c, Next(c, s, e))
  {
    match e
    case AskSend(t, size) => if Sendable(c, size) { AskAdmissions(c, s, Next(c, s, e), t, Record(size)); }
    case AskFlush(t) => AskAdmissions(c, s, Next(c, s, e), t, Flush);
    case Close(t) => AskAdmissions(c, s, Next(c, s, e), t, Closing);
    case Push(t) => PushAdmissions(c, s, t);
    case FlushEnds(t) => GiveBackAdmissions(c, s, t);
    case CloseEnds(t) => CloseEndsAdmissions(c, s, t);
    case Settle(k) => SettleAdmissions(c, s, k);
    case Receive | Resume | Collect | Expire | SendBatch => MoveAdmissions(c, s, e);
  }

  /** What every reachable session has. */
  ghost predicate Good(c: Config, s: Session) {
    c.maxInflight >= 1 && Inv(c, s) && Sequenced(c, s) && Admissions(c, s)
  }

  lemma StepGood(c: Config, s: Session, e: Event)
    requires Good(c, s) && Enabled(c, s, e)
    ensures Good(c, Next(c, s, e))
  {
    StepKeeps(c, s, e);
    StepSequenced(c, s, e);
    StepAdmissions(c, s, e);
  }

  lemma {:induction false} RunGood(c: Config, s: Session, es: seq<Event>, t: Session)
    requires Runs(c, s, es, t) && Good(c, s)
    ensures Good(c, t)
    decreases |es|
  {
    if es != [] {
      StepGood(c, s, es[0]);
      RunGood(c, Next(c, s, es[0]), es[1..], t);
    }
  }

  lemma ReachableIsGood(c: Config, es: seq<Event>, s: Session)
    requires Runs(c, Open(c), es, s) && c.maxInflight >= 1
    ensures Good(c, s)
  {
    OpenKeeps(c);
    assert InFlight(Open(c)) == {};
    RunGood(c, Open(c), es, s);
  }

  // ------------------------------------------------- when closing is clean

  /** A granted close means every record was pushed. */
  lemma ClosedMeansPushed(c: Config, s: Session, t: nat)
    requires Good(c, s) && t in s.budget.held && IsClosing(s.asked, t)
    ensures Unpushed(s) == {}
  {
    WholeBudgetMeansSettled(c, s, t);
    assert NoRecords(s.asked, s.budget.queue);
  }

  lemma SafePush(c: Config, s: Session, ticket: nat)
    requires Enabled(c, s, Push(ticket)) && s.closed && SafeToClose(s)
    ensures var t := Next(c, s, Push(ticket)); t.closed && NothingStranded(t) && SafeToClose(t)
  {
    PushLeaves(c, s, ticket);
    OnlyOne(Unpushed(s), ticket);
  }

  /** Only a granted close ends the wait for a first record without one. */
  lemma OtherStepsAreClean(c: Config, s: Session, e: Event)
    requires Enabled(c, s, e) && !e.Push? && s.closed && RunnerFits(c, s) && NothingStranded(s)
    ensures var t := Next(c, s, e); t.closed && NothingStranded(t) && (AwaitsFirst(s) && !e.CloseEnds? ==> AwaitsFirst(t))
  {
  }

  lemma OtherStepsPushNone(c: Config, s: Session, e: Event)
    requires Enabled(c, s, e) && !e.Push? && s.closed
    ensures Unpushed(Next(c, s, e)) == Unpushed(s)
  {
    var t := Next(c, s, e);
    assert t.pushed == s.pushed && forall u :: IsRecord(t.asked, u) <==> IsRecord(s.asked, u);
    assert forall u :: Tried(t, u) <==> Tried(s, u);
  }

  lemma SafeStep(c: Config, s: Session, e: Event)
    requires Good(c, s) && Enabled(c, s, e) && s.closed && NothingStranded(s) && SafeToClose(s)
    ensures var t := Next(c, s, e); t.closed && NothingStranded(t) && SafeToClose(t)
  {
    if e.Push? {
      SafePush(c, s, e.ticket);
    } else {
      if e.CloseEnds? { ClosedMeansPushed(c, s, e.ticket); }
      OtherStepsAreClean(c, s, e);
      OtherStepsPushNone(c, s, e);
    }
  }

  lemma PushLeaves(c: Config, s: Session, ticket: nat)
    requires Enabled(c, s, Push(ticket))
    ensures ticket in Unpushed(s) && Unpushed(Next(c, s, Push(ticket))) == Unpushed(s) - {ticket}
  {
    forall u ensures Tried(Next(c, s, Push(ticket)), u) <==> Tried(s, u) || u == ticket {
      PushTries(c, s, ticket, u);
    }
  }

  lemma OnlyOne(ts: set<nat>, t: nat)
    requires |ts| <= 1 && t in ts
    ensures ts - {t} == {}
  {
    assert |ts - {t}| == |ts| - 1;
  }

  /** From a safe closed session the runner only ever stops at an empty queue, and it stays empty. */
  lemma {:induction false} SafeRun(c: Config, s: Session, es: seq<Event>, t: Session)
    requires Runs(c, s, es, t) && Good(c, s) && s.closed && NothingStranded(s) && SafeToClose(s)
    ensures NothingStranded(t)
    decreases |es|
  {
    if es != [] {
      SafeStep(c, s, es[0]);
      StepGood(c, s, es[0]);
      SafeRun(c, Next(c, s, es[0]), es[1..], t);
    }
  }

  lemma RunsFirst(c: Config, s: Session, e: Event, es: seq<Event>, t: Session)
    requires Enabled(c, s, e) && Runs(c, Next(c, s, e), es, t)
    ensures Runs(c, s, [e] + es, t)
  {
    assert ([e] + es)[1..] == es;
  }

  lemma {:induction false} RunsConcat(c: Config, s: Session, a: seq<Event>, t: Session, b: seq<Event>, u: Session)
    requires Runs(c, s, a, t) && Runs(c, t, b, u)
    ensures Runs(c, s, a + b, u)
    decreases |a|
  {
    if a == [] {
      assert a + b == b;
    } else {
      assert (a + b)[1..] == a[1..] + b;
      RunsConcat(c, Next(c, s, a[0]), a[1..], t, b, u);
    }
  }

  function Weight(r: Runner): nat {
    match r
    case Stopped => 0
    case Idle => 1
    case First => 2
    case Sending => 3
    case Collecting => 4
    case Waiting => 5
  }

  /** How far a closed session's runner is from stopping. */
  function Distance(s: Session): nat {
    5 * (|s.items| + |Handed(s)|) + Weight(s.runner)
  }

  /** The session after `e` is closed, has left nothing behind and is nearer to its end. */
  ghost predicate Nearer(s: Session, t: Session) {
    && t.closed && NothingStranded(t) && !AwaitsFirst(t)
    && (Distance(t) < Distance(s) || (Distance(t) == Distance(s) && |InFlight(t)| < |InFlight(s)|))
  }

  lemma IdleOnward(c: Config, s: Session)
    requires s.runner.Idle? && s.closed && s.handed.None? && s.batch == []
    ensures Nearer(s, Next(c, s, Receive))
  {
  }

  lemma CollectOnward(c: Config, s: Session)
    requires s.runner.Collecting? && s.closed && s.handed.None? && s.batch != []
    ensures Nearer(s, Next(c, s, Collect))
  {
  }

  lemma ResumeOnward(c: Config, s: Session)
    requires s.runner.Waiting? && s.closed && s.handed.Some?
    ensures Nearer(s, Next(c, s, Resume))
  {
  }

  lemma ExpireOnward(c: Config, s: Session)
    requires Enabled(c, s, Expire) && s.runner.Waiting? && s.closed
    ensures Nearer(s, Next(c, s, Expire))
  {
  }

  lemma SendOnward(c: Config, s: Session)
    requires Enabled(c, s, SendBatch) && s.closed && s.handed.None?
    ensures Nearer(s, Next(c, s, SendBatch))
  {
  }

  lemma SettleOnward(c: Config, s: Session, k: nat)
    requires Enabled(c, s, Settle(k)) && s.closed && (s.runner.First? || s.runner.Sending?) && s.handed.None?
    ensures Nearer(s, Next(c, s, Settle(k)))
  {
    SettledInFlight(s, Next(c, s, Settle(k)), k);
  }

  /** Something brings the runner on, or settles a batch it waits for. */
  lemma Onward(c: Config, s: Session) returns (e: Event)
    requires Good(c, s) && s.closed && !s.runner.Stopped? && !AwaitsFirst(s)
    ensures Enabled(c, s, e) && (Moves(e) || e.Settle?) && Nearer(s, Next(c, s, e))
  {
    match s.runner
    case Idle => e := Receive; IdleOnward(c, s);
    case First => e := Settle(0); SettleOnward(c, s, 0);
    case Collecting => e := Collect; CollectOnward(c, s);
    case Waiting =>
      if s.handed.Some? { e := Resume; ResumeOnward(c, s); } else { e := Expire; ExpireOnward(c, s); }
    case Sending =>
      if |s.batches| == 1 || |InFlight(s)| < c.maxInflight {
        e := SendBatch;
        SendOnward(c, s);
      } else {
        var k :| k in InFlight(s);
        e := Settle(k);
        SettleOnward(c, s, k);
      }
  }

  lemma {:induction false} Drain(c: Config, s: Session) returns (es: seq<Event>, t: Session)
    requires Good(c, s) && s.closed && NothingStranded(s) && !AwaitsFirst(s)
    ensures Runs(c, s, es, t) && Good(c, t) && t.runner.Stopped? && t.items == []
    ensures t.asked == s.asked && t.pushed == s.pushed
    decreases Distance(s), |InFlight(s)|
  {
    if s.runner.Stopped? {
      es, t := [], s;
    } else {
      var e := Onward(c, s);
      StepGood(c, s, e);
      if Moves(e) { StepMoves(c, s, e); }
      es, t := Drain(c, Next(c, s, e));
      RunsFirst(c, s, e, es, t);
      es := [e] + es;
    }
  }

  // ---------------------------------------------------- admitting one more

  lemma {:induction false} PumpCounts(p: Permits)
    requires Tickets(p)
    ensures |Pump(p).held| + |Pump(p).queue| == |p.held| + |p.queue|
    decreases |p.queue|
  {
    if p.queue != [] && p.available >= p.queue[0].n {
      PumpStep(p);
      assert Serve(p).held.Keys == p.held.Keys + {p.queue[0].ticket};
      PumpCounts(Serve(p));
    }
  }

  lemma ReleaseCounts(p: Permits, w: Waiter)
    requires Tickets(p) && Holds(p, w)
    ensures |Release(p, w).held| + |Release(p, w).queue| < |p.held| + |p.queue|
  {
    var q := p.(available := p.available + w.n, held := p.held - {w.ticket});
    assert q.held.Keys == p.held.Keys - {w.ticket};
    PumpCounts(q);
  }

  /** Nothing is collected or queued, and every numbered batch was sent. */
  ghost predicate AtRest(s: Session) {
    Tail(s) == [] && s.started == |s.batches| && !s.runner.First?
  }

  lemma RestIsSettled(s: Session)
    requires AtRest(s) && InFlight(s) == {}
    ensures forall x :: !Unsettled(s, x)
  {
    forall k | 0 <= k < |s.batches| ensures k in s.settled {
      assert k !in InFlight(s);
    }
  }

  lemma HeldIsUnpushed(c: Config, s: Session, t: nat)
    requires Good(c, s) && AtRest(s) && InFlight(s) == {} && Unpushed(s) != {} && t in s.budget.held
    ensures t in s.asked && (t in Unpushed(s) || s.asked[t].Flush?)
  {
    RestIsSettled(s);
    assert !Tried(s, t);
    if IsClosing(s.asked, t) { ClosedMeansPushed(c, s, t); }
  }

  /** With everything settled, a record not yet pushed holds budget or a flush does. */
  lemma SomebodyHolds(c: Config, s: Session) returns (t: nat)
    requires Good(c, s) && AtRest(s) && InFlight(s) == {} && Unpushed(s) != {}
    ensures t in s.budget.held && t in s.asked && (t in Unpushed(s) || s.asked[t].Flush?)
  {
    var u :| u in Unpushed(s);
    assert Known(s.budget, u);
    if s.budget.held == map[] { NothingHeldNobodyWaits(s.budget); }
    t :| t in s.budget.held;
    HeldIsUnpushed(c, s, t);
  }

  /** Of the session only the budget and the settled batches differ. */
  ghost predicate OnlyPaid(s: Session, t: Session) {
    t == s.(budget := t.budget, settled := t.settled)
  }

  lemma PaidKeepsRest(s: Session, t: Session)
    requires OnlyPaid(s, t)
    ensures Unpushed(t) == Unpushed(s) && (AtRest(s) ==> AtRest(t))
  {
    assert Tail(t) == Tail(s);
  }

  lemma SettleIsPaid(c: Config, s: Session, k: nat)
    requires AtRest(s) && k in InFlight(s)
    ensures Enabled(c, s, Settle(k)) && OnlyPaid(s, Next(c, s, Settle(k)))
    ensures |InFlight(Next(c, s, Settle(k)))| < |InFlight(s)|
  {
    SettledInFlight(s, Next(c, s, Settle(k)), k);
  }

  lemma FlushIsPaid(c: Config, s: Session, h: nat)
    requires Inv(c, s) && Enabled(c, s, FlushEnds(h))
    ensures var t := Next(c, s, FlushEnds(h));
            && OnlyPaid(s, t) && InFlight(t) == InFlight(s)
            && |t.budget.held| + |t.budget.queue| < |s.budget.held| + |s.budget.queue|
  {
    ReleaseCounts(s.budget, Waiter(h, c.maxBufferedBytes));
  }

  /** Settling what is under way and ending flushes admits a record that waits. */
  lemma {:induction false} AdmitOne(c: Config, s: Session) returns (es: seq<Event>, t: Session, u: nat)
    requires Good(c, s) && AtRest(s) && Unpushed(s) != {}
    ensures Runs(c, s, es, t) && Good(c, t) && OnlyPaid(s, t)
    ensures u in Unpushed(s) && Enabled(c, t, Push(u))
    decreases |InFlight(s)|, |s.budget.held| + |s.budget.queue|
  {
    var e: Event;
    if InFlight(s) != {} {
      var k :| k in InFlight(s);
      e := Settle(k);
      SettleIsPaid(c, s, k);
    } else {
      var h := SomebodyHolds(c, s);
      if h in Unpushed(s) {
        es, t, u := [], s, h;
        return;
      }
      e := FlushEnds(h);
      FlushIsPaid(c, s, h);
    }
    var next := Next(c, s, e);
    StepGood(c, s, e);
    PaidKeepsRest(s, next);
    es, t, u := AdmitOne(c, next);
    RunsFirst(c, s, e, es, t);
    es := [e] + es;
  }

  // ---------------------------------------------------------------- both ways

  /** Once the runner stopped, the next record to be admitted is left behind. */
  lemma StrandStopped(c: Config, s: Session) returns (es: seq<Event>, t: Session)
    requires Good(c, s) && s.runner.Stopped? && s.items == [] && Unpushed(s) != {}
    ensures Runs(c, s, es, t) && !NothingStranded(t)
  {
    var a, u, ticket := AdmitOne(c, s);
    t := Next(c, u, Push(ticket));
    assert Runs(c, t, [], t);
    RunsFirst(c, u, Push(ticket), [], t);
    RunsConcat(c, s, a, u, [Push(ticket)] + [], t);
    es := a + ([Push(ticket)] + []);
  }

  lemma StrandBusy(c: Config, s: Session) returns (es: seq<Event>, t: Session)
    requires Good(c, s) && s.closed && NothingStranded(s) && !AwaitsFirst(s) && Unpushed(s) != {}
    ensures Runs(c, s, es, t) && !NothingStranded(t)
  {
    var a, u := Drain(c, s);
    assert Unpushed(u) == Unpushed(s);
    var b;
    b, t := StrandStopped(c, u);
    RunsConcat(c, s, a, u, b, t);
    es := a + b;
  }

  /** A runner that waits for the first record takes one, and a second one is left behind. */
  lemma StrandWaiting(c: Config, s: Session) returns (es: seq<Event>, t: Session)
    requires Good(c, s) && s.closed && AwaitsFirst(s) && |Unpushed(s)| >= 2
    ensures Runs(c, s, es, t) && !NothingStranded(t)
  {
    var a, u, ticket := AdmitOne(c, s);
    assert Unpushed(u) == Unpushed(s);
    var v := Next(c, u, Push(ticket));
    PushLeaves(c, u, ticket);
    StepGood(c, u, Push(ticket));
    assert |Unpushed(v)| == |Unpushed(s)| - 1;
    var b;
    b, t := StrandBusy(c, v);
    RunsFirst(c, u, Push(ticket), b, t);
    RunsConcat(c, s, a, u, [Push(ticket)] + b, t);
    es := a + ([Push(ticket)] + b);
  }

  /** Whatever happens next, the runner never stops at a queue that is not empty. */
  ghost predicate NeverStrands(c: Config, s: Session) {
    forall es, t :: Runs(c, s, es, t) ==> NothingStranded(t)
  }

  /** For every closed session that can be reached and has lost nothing: no continuation strands a record
      exactly when every record was pushed, or one is missing and the runner is waiting for it. */
  lemma ClosingIsCleanIff(c: Config, es: seq<Event>, s: Session)
    requires Runs(c, Open(c), es, s) && c.maxInflight >= 1 && s.closed && NothingStranded(s)
    ensures NeverStrands(c, s) <==> SafeToClose(s)
  {
    ReachableIsGood(c, es, s);
    if SafeToClose(s) {
      forall fs, t | Runs(c, s, fs, t) ensures NothingStranded(t) {
        SafeRun(c, s, fs, t);
      }
    } else if AwaitsFirst(s) {
      var fs, t := StrandWaiting(c, s);
    } else {
      var fs, t := StrandBusy(c, s);
    }
  }

  // -------------------------------------------------------------- left behind

  lemma StrandedStep(c: Config, s: Session, e: Event)
    requires Enabled(c, s, e) && s.runner.Stopped? && RunnerFits(c, s)
    ensures var t := Next(c, s, e); t.runner.Stopped? && s.items <= t.items
  {
  }

  lemma QueuedHolds(c: Config, s: Session)
    requires Inv(c, s) && s.items != []
    ensures forall x :: x in s.items ==> Holds(s.budget, Share(x))
    ensures forall u :: u in s.budget.held ==> IsRecord(s.asked, u)
  {
    forall x | x in s.items ensures Holds(s.budget, Share(x)) {
      assert x in Tail(s);
      assert Unsettled(s, x);
    }
    forall u | u in s.budget.held ensures IsRecord(s.asked, u) {
      if !IsRecord(s.asked, u) { WholeBudgetMeansSettled(c, s, u); }
    }
  }

  /** A record left behind stays in the queue and keeps its budget, whatever happens. So the whole budget is
      never granted again: no flush and no close ends. */
  lemma {:induction false} StrandedForever(c: Config, s: Session, es: seq<Event>, t: Session)
    requires Runs(c, s, es, t) && Inv(c, s) && s.runner.Stopped? && s.items != []
    ensures t.runner.Stopped? && s.items <= t.items
    ensures forall x :: x in t.items ==> Holds(t.budget, Share(x))
    ensures forall u :: !Enabled(c, t, FlushEnds(u)) && !Enabled(c, t, CloseEnds(u))
    decreases |es|
  {
    if es == [] {
      QueuedHolds(c, s);
    } else {
      StrandedStep(c, s, es[0]);
      StepKeeps(c, s, es[0]);
      StrandedForever(c, Next(c, s, es[0]), es[1..], t);
    }
  }

  const ONE_BYTE := Config(1, 1, false, 1, 1)

  /** A second record waits for budget while the session closes. */
  const CROWDED: Session :=
    Session(Permits(1, 0, [Waiter(1, 1), Waiter(2, 1)], map[0 := 1]), map[0 := Record(1), 1 := Record(1), 2 := Closing],
            [Item(0, 1)], [], None, [Item(0, 1)], [], 0, {}, Collecting, true)

  /** Its turn comes after the runner has stopped. */
  const STRANDED: Session :=
    Session(Permits(1, 0, [Waiter(2, 1)], map[1 := 1]), map[0 := Record(1), 1 := Record(1), 2 := Closing],
            [Item(0, 1), Item(1, 1)], [Item(1, 1)], None, [], [[Item(0, 1)]], 1, {0}, Stopped, true)

  const TO_CROWDED: seq<Event> := [AskSend(0, 1), Push(0), Receive, AskSend(1, 1), Close(2)]
  const TO_GRANTED: seq<Event> := [Collect, SendBatch, Settle(0)]
  const TO_STRANDED: seq<Event> := [Receive, Push(1)]

  lemma ReachesCrowded()
    ensures Runs(ONE_BYTE, Open(ONE_BYTE), TO_CROWDED, CROWDED)
  {
    var c, es := ONE_BYTE, TO_CROWDED;
    var s1 := Next(c, Open(c), es[0]);
    var s2 := Next(c, s1, es[1]);
    var s3 := Next(c, s2, es[2]);
    var s4 := Next(c, s3, es[3]);
    assert Next(c, s4, es[4]) == CROWDED;
    assert es[1..][1..] == es[2..] && es[2..][1..] == es[3..] && es[3..][1..] == es[4..] && es[4..][1..] == [];
    assert Runs(c, s4, es[4..], CROWDED) && Runs(c, s3, es[3..], CROWDED);
  }

  lemma FirstGranted(p: Permits)
    requires p == CROWDED.budget
    ensures Release(p, Waiter(0, 1)) == STRANDED.budget
  {
    var q := Permits(1, 1, [Waiter(1, 1), Waiter(2, 1)], map[]);
    assert p.(available := 1, held := p.held - {0}) == q;
    assert Serve(q) == STRANDED.budget by { assert [Waiter(1, 1), Waiter(2, 1)][1..] == [Waiter(2, 1)]; }
    PumpStep(q);
  }

  /** The first record is sent and settles, and the second is granted its budget. */
  const GRANTED: Session :=
    CROWDED.(budget := STRANDED.budget, batch := [], batches := [[Item(0, 1)]], started := 1, settled := {0}, runner := Idle)

  lemma ReachesGranted()
    ensures Runs(ONE_BYTE, CROWDED, TO_GRANTED, GRANTED)
  {
    var c, es := ONE_BYTE, TO_GRANTED;
    var s1 := Next(c, CROWDED, es[0]);
    var s2 := Next(c, s1, es[1]);
    FirstGranted(s2.budget);
    assert [Item(0, 1)][1..] == [];
    assert Next(c, s2, es[2]) == GRANTED;
    assert es[1..][1..] == es[2..] && es[2..][1..] == [];
    assert Runs(c, s2, es[2..], GRANTED);
  }

  lemma ReachesStranded()
    ensures Runs(ONE_BYTE, GRANTED, TO_STRANDED, STRANDED)
  {
    var c, es := ONE_BYTE, TO_STRANDED;
    var s1 := Next(c, GRANTED, es[0]);
    assert Next(c, s1, es[1]) == STRANDED;
    assert es[1..][1..] == [];
  }

  /** A session of two records that closes while the second waits for budget leaves it behind. */
  lemma ClosingCanStrand()
    ensures Runs(ONE_BYTE, Open(ONE_BYTE), TO_CROWDED + TO_GRANTED + TO_STRANDED, STRANDED)
    ensures !NothingStranded(STRANDED) && 1 in STRANDED.budget.held
  {
    ReachesCrowded();
    ReachesGranted();
    ReachesStranded();
    RunsConcat(ONE_BYTE, Open(ONE_BYTE), TO_CROWDED, CROWDED, TO_GRANTED, GRANTED);
    RunsConcat(ONE_BYTE, Open(ONE_BYTE), TO_CROWDED + TO_GRANTED, GRANTED, TO_STRANDED, STRANDED);
  }
}
