/** What a producer session promises besides order and limits: what is admitted, that batches are as full as
    they can be, that as many are under way as may be, and that the session never gets stuck. */
module ProducerRules {
  import opened Budget
  import opened Producer
  import opened Shutdown

  // --------------------------------------------------------------- admission

  /** A record is taken exactly if it fits the budget and a batch, and then gets its share at once if so much
      is free, ahead of anyone waiting, or waits as the last. */
  lemma SendAsks(c: Config, s: Session, ticket: nat, size: nat)
    requires Enabled(c, s, AskSend(ticket, size)) && Inv(c, s)
    ensures var t := Next(c, s, AskSend(ticket, size));
            if size <= c.maxBufferedBytes && size <= c.maxBatchBytes then
              && t == s.(asked := s.asked[ticket := Record(size)], budget := t.budget)
              && (size <= s.budget.available ==>
                    t.budget == Permits(c.maxBufferedBytes, s.budget.available - size, s.budget.queue, s.budget.held[ticket := size]))
              && (size > s.budget.available ==>
                    t.budget == Permits(c.maxBufferedBytes, s.budget.available, s.budget.queue + [Waiter(ticket, size)], s.budget.held))
            else t == s
  {
  }

  /** A flush and a close ask for all there is, and wait for it if any of it is in use. */
  lemma WholeBudgetAsks(c: Config, s: Session, ticket: nat)
    requires ticket !in s.asked && Inv(c, s)
    ensures var t, u := Next(c, s, AskFlush(ticket)), Next(c, s, Close(ticket));
            && t == s.(asked := s.asked[ticket := Flush], budget := t.budget)
            && u == s.(asked := s.asked[ticket := Closing], budget := t.budget, closed := true)
            && (ticket in t.budget.held <==> s.budget.available == c.maxBufferedBytes)
            && (ticket !in t.budget.held ==> t.budget.queue == s.budget.queue + [Waiter(ticket, c.maxBufferedBytes)])
            && (ticket in t.budget.held ==> t.budget.held[ticket] == c.maxBufferedBytes)
  {
    assert s.budget.available <= c.maxBufferedBytes;
    assert ticket !in s.budget.held;
  }

  /** No send after a close, and no ticket twice. */
  lemma SendsStop(c: Config, s: Session, ticket: nat, size: nat)
    ensures Enabled(c, s, AskSend(ticket, size)) <==> ticket !in s.asked && size >= 1 && !s.closed
    ensures Enabled(c, s, AskFlush(ticket)) <==> ticket !in s.asked
    ensures Enabled(c, s, Close(ticket)) <==> ticket !in s.asked
  {
  }

  /** Settling a batch gives back the shares of its records, and of no others. */
  lemma SettlingFrees(c: Config, s: Session, k: nat, x: Item)
    requires Good(c, s) && Enabled(c, s, Settle(k))
    ensures var t := Next(c, s, Settle(k));
            && (x in s.batches[k] ==> x.ticket !in t.budget.held)
            && (Unsettled(s, x) && x !in s.batches[k] && Unsettled(t, x) ==> Holds(t.budget, Share(x)))
            && t.settled == s.settled + {k}
  {
    var xs := s.batches[k];
    BatchIsDistinct(s, k);
    forall i | 0 <= i < |xs| ensures Holds(s.budget, Share(xs[i])) {
      assert xs[i] in xs;
      assert Unsettled(s, xs[i]);
    }
    ReleaseAllPasses(s.asked, s.budget, xs);
    SettleKeepsBudget(c, s, k);
    if x in xs { assert x.ticket in TicketsOf(xs); }
  }

  // ----------------------------------------------------------------- batches

  /** The batch cannot grow: it has its records or its bytes, or the next record does not fit, or there is none
      and nothing to wait for. */
  ghost predicate Complete(c: Config, s: Session, b: seq<Item>, items: seq<Item>) {
    || |b| >= c.maxBatchRecords || Bytes(b) >= c.maxBatchBytes
    || (items != [] && Bytes(b) + items[0].size > c.maxBatchBytes)
    || (items == [] && (!c.lingers || s.closed))
  }

  /** Unless its time is up, a batch goes out only when it is complete. */
  lemma BatchesAreFull(c: Config, s: Session, e: Event)
    requires Enabled(c, s, e) && RunnerFits(c, s) && |Next(c, s, e).batches| > |s.batches| && !e.Expire? && !e.CloseEnds?
    ensures var t := Next(c, s, e);
            && |t.batches| == |s.batches| + 1 && t.runner.Sending?
            && Complete(c, s, t.batches[|s.batches|], t.items)
  {
  }

  /** And while it is not complete the runner takes the next record, if there is one. */
  lemma CollectingTakes(c: Config, s: Session)
    requires s.runner.Collecting? && s.items != [] && !Complete(c, s, s.batch, s.items)
    ensures var t := Next(c, s, Collect);
            t.batch == s.batch + [s.items[0]] && t.items == s.items[1..] && t.runner.Collecting? && t.batches == s.batches
  {
  }

  /** With nothing to take it waits only if it lingers, or has no batch begun. */
  lemma WaitingIsForMore(c: Config, s: Session, e: Event)
    requires Enabled(c, s, e) && !s.runner.Waiting? && Next(c, s, e).runner.Waiting?
    ensures s.items == [] && !s.closed && (e.Receive? || (e.Collect? && c.lingers))
  {
  }

  // ---------------------------------------------------------------- progress

  /** While a record is in the queue or in a batch not yet settled, and was not left behind by a runner that
      stopped, the session can take a step of its own. */
  lemma SessionCanMove(c: Config, s: Session) returns (e: Event)
    requires Good(c, s) && NothingStranded(s) && (Tail(s) != [] || InFlight(s) != {} || s.runner.Sending?)
    ensures Enabled(c, s, e) && (Moves(e) || e.Settle?)
  {
    match s.runner
    case Idle => e := Receive;
    case First => e := Settle(0);
    case Collecting => e := Collect;
    case Waiting =>
      if s.handed.Some? { e := Resume; }
      else if s.batch != [] { e := Expire; }
      else {
        assert Tail(s) == [];
        var k :| k in InFlight(s);
        e := Settle(k);
      }
    case Stopped =>
      assert Tail(s) == [];
      var k :| k in InFlight(s);
      e := Settle(k);
    case Sending =>
      if |s.batches| == 1 || |InFlight(s)| < c.maxInflight {
        e := SendBatch;
      } else {
        var k :| k in InFlight(s);
        e := Settle(k);
      }
  }

  /** A numbered batch is sent as soon as fewer are under way than may be; the first one always. */
  lemma SendingIsNotHeldBack(c: Config, s: Session)
    requires Good(c, s) && s.runner.Sending?
    ensures Enabled(c, s, SendBatch) <==> |s.batches| == 1 || |InFlight(s)| < c.maxInflight
    ensures Enabled(c, s, SendBatch) ==>
              var t := Next(c, s, SendBatch);
              t.started == |s.batches| && t.started == s.started + 1 && InFlight(t) == InFlight(s) + {s.started}
              && t.runner == if |s.batches| == 1 then First else Idle
  {
    if Enabled(c, s, SendBatch) {
      assert InFlight(Next(c, s, SendBatch)) == InFlight(s) + {s.started};
    }
  }
}
