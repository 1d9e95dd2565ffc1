/** The producer session: records are admitted against a byte budget, queued, collected into batches that
    are numbered and sent, and their budget is returned when the batch settles. */
module Producer {
  import opened Prelude
  import opened Sums
  import opened Budget

  datatype Config = Config(maxBatchRecords: nat, maxBatchBytes: nat, lingers: bool, maxInflight: nat, maxBufferedBytes: nat)

  /** A record: the ticket under which it holds budget, and its size. */
  datatype Item = Item(ticket: nat, size: nat)

  /** What budget is asked for: a record's size, or all of it by a flush and by closing. */
  datatype Ask = Record(size: nat) | Flush | Closing

  function Amount(c: Config, a: Ask): nat {
    match a
    case Record(size) => size
    case Flush | Closing => c.maxBufferedBytes
  }

  /** The loop that receives, collects and sends.
      Waiting: for an item, the first of a batch or another one. Sending: the last numbered batch is to be
      sent next. First: the batch numbered 0 is under way, alone. */
  datatype Runner = Idle | Waiting | Collecting | Sending | First | Stopped

  datatype Session = Session(
    budget: Permits,
    asked: map<nat, Ask>,          // every send, flush and close so far, by ticket
    pushed: seq<Item>,             // history: records in the order they entered the queue
    items: seq<Item>,              // the queue
    handed: Option<Item>,          // given to the waiting runner, which has not resumed yet
    batch: seq<Item>,              // being collected
    batches: seq<seq<Item>>,       // collected; a batch's number is its position
    started: nat,                  // how many of them were sent
    settled: set<nat>,
    runner: Runner,
    closed: bool)

  function Open(c: Config): Session {
    Session(Full(c.maxBufferedBytes), map[], [], [], None, [], [], 0, {}, Idle, false)
  }

  function Bytes(xs: seq<Item>): nat {
    if xs == [] then 0 else Bytes(xs[..|xs| - 1]) + xs[|xs| - 1].size
  }

  datatype Event =
    | AskSend(ticket: nat, size: nat)
    | AskFlush(ticket: nat)
    | Push(ticket: nat)              // an admitted record enters the queue
    | FlushEnds(ticket: nat)         // a granted flush gives the budget back
    | Close(ticket: nat)             // no more sends; the whole budget is asked for
    | CloseEnds(ticket: nat)         // once granted it is given back, and the waiting runner told there is nothing
    | Receive                        // the runner asks for the first item of a batch
    | Resume                         // the runner takes the item it was handed
    | Collect                        // one turn of the collecting loop
    | Expire                         // the linger deadline passes
    | SendBatch
    | Settle(number: nat)            // a batch was acknowledged, or failed for good

  /** A record the session takes at all. */
  predicate Sendable(c: Config, size: nat) {
    1 <= size <= c.maxBufferedBytes && size <= c.maxBatchBytes
  }

  predicate Tried(s: Session, t: nat) {
    exists i :: 0 <= i < |s.pushed| && s.pushed[i].ticket == t
  }

  function InFlight(s: Session): set<nat> {
    set k | 0 <= k < s.started && k !in s.settled
  }

  predicate Enabled(c: Config, s: Session, e: Event) {
    match e
    case AskSend(t, size) => t !in s.asked && size >= 1 && !s.closed
    case AskFlush(t) => t !in s.asked
    case Push(t) => t in s.budget.held && t in s.asked && s.asked[t].Record? && !Tried(s, t)
    case FlushEnds(t) => t in s.budget.held && t in s.asked && s.asked[t].Flush?
    case Close(t) => t !in s.asked
    case CloseEnds(t) => t in s.budget.held && t in s.asked && s.asked[t].Closing?
    case Receive => s.runner.Idle?
    case Resume => s.handed.Some?
    case Collect => s.runner.Collecting?
    case Expire => c.lingers && s.batch != [] && (s.runner.Collecting? || (s.runner.Waiting? && s.handed.None?))
    case SendBatch => s.runner.Sending? && (|s.batches| == 1 || |InFlight(s)| < c.maxInflight)
    case Settle(k) => k < s.started <= |s.batches| && k !in s.settled
  }

  /** The batch is complete: it gets the next number. */
  function Finish(s: Session): Session {
    s.(batches := s.batches + [s.batch], batch := [], runner := Sending)
  }

  predicate HasRoom(c: Config, s: Session) {
    |s.batch| < c.maxBatchRecords && Bytes(s.batch) < c.maxBatchBytes
  }

  /** An item joins the batch, or goes back to the head of the queue and the batch is complete. */
  function Add(c: Config, s: Session, x: Item): Session {
    if s.batch != [] && Bytes(s.batch) + x.size > c.maxBatchBytes then Finish(s.(items := [x] + s.items))
    else s.(batch := s.batch + [x], runner := Collecting)
  }

  /** The head of the queue; without one, a wait, unless the session is closed. */
  function TakeOrWait(c: Config, s: Session): Session {
    if s.items != [] then Add(c, s.(items := s.items[1..]), s.items[0])
    else if !s.closed then s.(runner := Waiting)
    else if s.batch == [] then s.(runner := Stopped)
    else Finish(s)
  }

  function CollectTurn(c: Config, s: Session): Session {
    if !HasRoom(c, s) then Finish(s)
    else if c.lingers || s.items != [] then TakeOrWait(c, s)
    else Finish(s)
  }

  /** A waiting runner gets nothing: it is done, or with a batch begun goes on to send it. */
  function Awaken(s: Session): Session {
    if !s.runner.Waiting? || s.handed.Some? then s
    else if s.batch == [] then s.(runner := Stopped)
    else Finish(s)
  }

  function GiveBack(c: Config, s: Session, t: nat): Session {
    s.(budget := Release(s.budget, Waiter(t, c.maxBufferedBytes)))
  }

  function Share(x: Item): Waiter { Waiter(x.ticket, x.size) }

  /** Record by record, in batch order. */
  function ReleaseAll(p: Permits, xs: seq<Item>): Permits
    decreases |xs|
  {
    if xs == [] then p else ReleaseAll(Release(p, Share(xs[0])), xs[1..])
  }

  function Next(c: Config, s: Session, e: Event): Session
    requires Enabled(c, s, e)
  {
    match e
    case AskSend(t, size) =>
      if !Sendable(c, size) then s
      else s.(asked := s.asked[t := Record(size)], budget := Acquire(s.budget, Waiter(t, size)))
    case AskFlush(t) => s.(asked := s.asked[t := Flush], budget := Acquire(s.budget, Waiter(t, c.maxBufferedBytes)))
    case Push(t) =>
      var x := Item(t, s.asked[t].size);
      if s.runner.Waiting? && s.handed.None? then s.(pushed := s.pushed + [x], handed := Some(x))
      else s.(pushed := s.pushed + [x], items := s.items + [x])
    case FlushEnds(t) => GiveBack(c, s, t)
    case Close(t) =>
      s.(closed := true, asked := s.asked[t := Closing], budget := Acquire(s.budget, Waiter(t, c.maxBufferedBytes)))
    case CloseEnds(t) => Awaken(GiveBack(c, s, t))
    case Receive => TakeOrWait(c, s)
    case Resume => Add(c, s.(handed := None), s.handed.value)
    case Collect => CollectTurn(c, s)
    case Expire => Finish(s)
    case SendBatch => s.(started := |s.batches|, runner := if |s.batches| == 1 then First else Idle)
    case Settle(k) =>
      s.(settled := s.settled + {k},
         budget := ReleaseAll(s.budget, s.batches[k]),
         runner := if s.runner.First? then Idle else s.runner)
  }

  ghost predicate Runs(c: Config, s: Session, es: seq<Event>, t: Session)
    decreases |es|
  {
    if es == [] then s == t else Enabled(c, s, es[0]) && Runs(c, Next(c, s, es[0]), es[1..], t)
  }

  // ------------------------------------------------------- order and limits

  function Flatten(bs: seq<seq<Item>>): seq<Item> {
    if bs == [] then [] else Flatten(bs[..|bs| - 1]) + bs[|bs| - 1]
  }

  function Handed(s: Session): seq<Item> {
    if s.handed.Some? then [s.handed.value] else []
  }

  /** Received and waiting records, in order. */
  function Line(s: Session): seq<Item> {
    Flatten(s.batches) + s.batch + Handed(s) + s.items
  }

  ghost predicate WithinLimits(c: Config, b: seq<Item>) {
    1 <= |b| <= Max(1, c.maxBatchRecords) && Bytes(b) <= c.maxBatchBytes
  }

  /** Where the runner can be, and what that says about the queue and the batch. */
  ghost predicate RunnerFits(c: Config, s: Session) {
    && (s.runner.Waiting? ==> (s.handed.None? ==> s.items == []) && (s.batch != [] ==> |s.batch| < c.maxBatchRecords))
    && (!s.runner.Waiting? ==> s.handed.None?)
    && (s.runner.Collecting? ==> s.batch != [])
    && (!s.runner.Waiting? && !s.runner.Collecting? ==> s.batch == [])
    && (s.batch != [] ==> WithinLimits(c, s.batch))
  }

  ghost predicate BatchesFit(c: Config, bs: seq<seq<Item>>) {
    forall k :: 0 <= k < |bs| ==> WithinLimits(c, bs[k])
  }

  ghost predicate SizesFit(c: Config, xs: seq<Item>) {
    forall i :: 0 <= i < |xs| ==> xs[i].size <= c.maxBatchBytes
  }

  /** What was pushed is in the line, each record once, and every batch is within the limits. */
  ghost predicate InOrder(c: Config, s: Session) {
    Line(s) == s.pushed && RunnerFits(c, s) && BatchesFit(c, s.batches) && SizesFit(c, s.pushed)
  }

  lemma FinishKeepsLine(s: Session)
    requires s.handed.None?
    ensures Line(Finish(s)) == Line(s)
  {
    assert (s.batches + [s.batch])[..|s.batches|] == s.batches;
    assert Flatten(s.batches + [s.batch]) == Flatten(s.batches) + s.batch;
  }

  lemma FinishInOrder(c: Config, s: Session)
    requires s.handed.None? && s.batch != [] && WithinLimits(c, s.batch) && BatchesFit(c, s.batches)
    ensures RunnerFits(c, Finish(s)) && BatchesFit(c, Finish(s).batches)
  {
  }

  lemma BytesAppend(xs: seq<Item>, x: Item)
    ensures Bytes(xs + [x]) == Bytes(xs) + x.size
  {
    assert (xs + [x])[..|xs|] == xs;
  }

  /** Adding leaves the line as it is with the item between the batch and the queue. */
  lemma AddKeepsLine(c: Config, s: Session, x: Item)
    requires s.handed.None?
    ensures Line(Add(c, s, x)) == Flatten(s.batches) + s.batch + [x] + s.items
  {
    if s.batch != [] && Bytes(s.batch) + x.size > c.maxBatchBytes {
      FinishKeepsLine(s.(items := [x] + s.items));
    }
  }

  lemma AddFits(c: Config, s: Session, x: Item)
    requires s.handed.None? && x.size <= c.maxBatchBytes && BatchesFit(c, s.batches)
    requires s.batch != [] ==> WithinLimits(c, s.batch) && |s.batch| < c.maxBatchRecords
    ensures RunnerFits(c, Add(c, s, x)) && BatchesFit(c, Add(c, s, x).batches)
  {
    if s.batch != [] && Bytes(s.batch) + x.size > c.maxBatchBytes {
      FinishInOrder(c, s.(items := [x] + s.items));
    } else {
      BytesAppend(s.batch, x);
    }
  }

  lemma InLine(c: Config, s: Session, x: Item)
    requires SizesFit(c, Line(s)) && x in s.items
    ensures x.size <= c.maxBatchBytes
  {
    var i :| 0 <= i < |s.items| && s.items[i] == x;
    assert Line(s)[|Line(s)| - |s.items| + i] == x;
  }

  lemma HeadOfLine(s: Session)
    requires s.handed.None? && s.items != []
    ensures Line(s) == Flatten(s.batches) + s.batch + [s.items[0]] + s.items[1..]
  {
    assert s.items == [s.items[0]] + s.items[1..];
  }

  lemma TakeInOrder(c: Config, s: Session)
    requires InOrder(c, s) && s.items != [] && (s.runner.Idle? || (s.runner.Collecting? && HasRoom(c, s)))
    ensures InOrder(c, Add(c, s.(items := s.items[1..]), s.items[0]))
  {
    var x, rest := s.items[0], s.(items := s.items[1..]);
    InLine(c, s, x);
    AddKeepsLine(c, rest, x);
    AddFits(c, rest, x);
    HeadOfLine(s);
  }

  lemma TakeOrWaitInOrder(c: Config, s: Session)
    requires InOrder(c, s) && (s.runner.Idle? || (s.runner.Collecting? && HasRoom(c, s)))
    ensures InOrder(c, TakeOrWait(c, s))
  {
    if s.items != [] {
      TakeInOrder(c, s);
    } else if s.closed && s.batch != [] {
      FinishKeepsLine(s);
      FinishInOrder(c, s);
    }
  }

  lemma ResumeInOrder(c: Config, s: Session)
    requires InOrder(c, s) && s.handed.Some?
    ensures InOrder(c, Next(c, s, Resume))
  {
    var x, rest := s.handed.value, s.(handed := None);
    assert Line(s) == Flatten(s.batches) + s.batch + [x] + s.items;
    assert Line(s)[|Flatten(s.batches)| + |s.batch|] == x;
    AddKeepsLine(c, rest, x);
    AddFits(c, rest, x);
  }

  lemma CollectInOrder(c: Config, s: Session)
    requires InOrder(c, s) && s.runner.Collecting?
    ensures InOrder(c, CollectTurn(c, s))
  {
    if HasRoom(c, s) && (c.lingers || s.items != []) {
      TakeOrWaitInOrder(c, s);
    } else {
      FinishKeepsLine(s);
      FinishInOrder(c, s);
    }
  }

  lemma PushInOrder(c: Config, s: Session, t: nat)
    requires InOrder(c, s) && Enabled(c, s, Push(t)) && s.asked[t].size <= c.maxBatchBytes
    ensures InOrder(c, Next(c, s, Push(t)))
  {
    var x := Item(t, s.asked[t].size);
    assert Line(Next(c, s, Push(t))) == Line(s) + [x];
  }

  lemma StepInOrder(c: Config, s: Session, e: Event)
    requires InOrder(c, s) && Enabled(c, s, e)
    requires e.Push? ==> s.asked[e.ticket].size <= c.maxBatchBytes
    ensures InOrder(c, Next(c, s, e))
  {
    match e
    case Push(t) => PushInOrder(c, s, t);
    case Receive => TakeOrWaitInOrder(c, s);
    case Resume => ResumeInOrder(c, s);
    case Collect => CollectInOrder(c, s);
    case Expire => FinishKeepsLine(s); FinishInOrder(c, s);
    case CloseEnds(t) => AwakenInOrder(c, GiveBack(c, s, t));
    case AskSend(_, _) =>
    case AskFlush(_) =>
    case FlushEnds(_) =>
    case Close(_) =>
    case SendBatch =>
    case Settle(_) =>
  }

  lemma AwakenInOrder(c: Config, s: Session)
    requires InOrder(c, s)
    ensures InOrder(c, Awaken(s))
  {
    if s.runner.Waiting? && s.handed.None? && s.batch != [] {
      FinishKeepsLine(s);
      FinishInOrder(c, s);
    }
  }

  // ----------------------------------------------------------------- budget

  ghost predicate DistinctTickets(xs: seq<Item>) {
    forall i, j :: 0 <= i < j < |xs| ==> xs[i].ticket != xs[j].ticket
  }

  /** Whoever holds or waits for budget asked for just that much. */
  ghost predicate AsAsked(c: Config, asked: map<nat, Ask>, p: Permits) {
    && (forall t :: t in p.held ==> t in asked && p.held[t] == Amount(c, asked[t]))
    && (forall i :: 0 <= i < |p.queue| ==> p.queue[i].ticket in asked && p.queue[i].n == Amount(c, asked[p.queue[i].ticket]))
  }

  lemma ReleaseAsAsked(c: Config, asked: map<nat, Ask>, p: Permits, w: Waiter)
    requires AsAsked(c, asked, p) && Tickets(p) && Holds(p, w)
    ensures AsAsked(c, asked, Release(p, w))
  {
    ReleaseShape(p, w);
    forall t | t in Release(p, w).held ensures t in asked && Release(p, w).held[t] == Amount(c, asked[t]) {
      if t != w.ticket { ReleaseAt(p, w, t); }
    }
  }

  /** Settling a batch gives back its own shares, each once, and nobody else's. */
  lemma {:induction false} ReleaseAllKeeps(c: Config, asked: map<nat, Ask>, p: Permits, xs: seq<Item>)
    requires Sound(p) && AsAsked(c, asked, p) && DistinctTickets(xs)
    requires forall i :: 0 <= i < |xs| ==> Holds(p, Share(xs[i]))
    ensures Sound(ReleaseAll(p, xs)) && AsAsked(c, asked, ReleaseAll(p, xs))
    decreases |xs|
  {
    if xs != [] {
      var q := Release(p, Share(xs[0]));
      ReleaseIsSound(p, Share(xs[0]));
      ReleaseAsAsked(c, asked, p, Share(xs[0]));
      forall i | 0 <= i < |xs| - 1 ensures Holds(q, Share(xs[1..][i])) {
        ReleaseAt(p, Share(xs[0]), xs[i + 1].ticket);
      }
      ReleaseAllKeeps(c, asked, q, xs[1..]);
    }
  }

  lemma {:induction false} ReleaseAllSpares(p: Permits, xs: seq<Item>, y: Item)
    requires Sound(p) && DistinctTickets(xs) && Holds(p, Share(y))
    requires forall i :: 0 <= i < |xs| ==> Holds(p, Share(xs[i])) && xs[i].ticket != y.ticket
    ensures Holds(ReleaseAll(p, xs), Share(y))
    decreases |xs|
  {
    if xs != [] {
      var q := Release(p, Share(xs[0]));
      ReleaseIsSound(p, Share(xs[0]));
      ReleaseAt(p, Share(xs[0]), y.ticket);
      forall i | 0 <= i < |xs| - 1 ensures Holds(q, Share(xs[1..][i])) {
        ReleaseAt(p, Share(xs[0]), xs[i + 1].ticket);
      }
      ReleaseAllSpares(q, xs[1..], y);
    }
  }

  // ------------------------------------------------------- where a record is

  lemma {:induction false} FlattenConcat(a: seq<seq<Item>>, b: seq<seq<Item>>)
    ensures Flatten(a + b) == Flatten(a) + Flatten(b)
    decreases |b|
  {
    if b == [] {
      assert a + b == a;
    } else {
      var n := |b| - 1;
      assert (a + b)[..|a| + n] == a + b[..n];
      FlattenConcat(a, b[..n]);
    }
  }

  lemma CutAt(bs: seq<seq<Item>>, k: nat)
    requires k < |bs|
    ensures bs == bs[..k] + [bs[k]] + bs[k + 1..]
  {
  }

  lemma FlattenOne(b: seq<Item>)
    ensures Flatten([b]) == b
  {
    assert [b][..0] == [];
    assert Flatten([b]) == Flatten([]) + b;
  }

  lemma FlattenSplit(bs: seq<seq<Item>>, k: nat)
    requires k < |bs|
    ensures Flatten(bs) == Flatten(bs[..k]) + bs[k] + Flatten(bs[k + 1..])
  {
    var a, c := bs[..k], bs[k + 1..];
    CutAt(bs, k);
    FlattenConcat(a + [bs[k]], c);
    FlattenConcat(a, [bs[k]]);
    FlattenOne(bs[k]);
  }

  lemma FlattenHas(bs: seq<seq<Item>>, k: nat, x: Item)
    requires k < |bs| && x in bs[k]
    ensures x in Flatten(bs)
  {
    FlattenSplit(bs, k);
  }

  /** The records after the numbered batches. */
  function Tail(s: Session): seq<Item> {
    s.batch + Handed(s) + s.items
  }

  lemma LineSplit(s: Session, k: nat)
    requires k < |s.batches|
    ensures Line(s) == Flatten(s.batches[..k]) + s.batches[k] + (Flatten(s.batches[k + 1..]) + Tail(s))
  {
    FlattenSplit(s.batches, k);
  }

  lemma PartsAreApart(a: seq<Item>, b: seq<Item>, c: seq<Item>, x: Item, y: Item)
    requires DistinctTickets(a + b + c) && x in b && (y in a || y in c)
    ensures x.ticket != y.ticket
  {
    var all := a + b + c;
    var i :| 0 <= i < |b| && b[i] == x;
    assert all[|a| + i] == x;
    if y in a {
      var j :| 0 <= j < |a| && a[j] == y;
      assert all[j] == y;
    } else {
      var j :| 0 <= j < |c| && c[j] == y;
      assert all[|a| + |b| + j] == y;
    }
  }

  /** In the line, and not part of a settled batch. */
  ghost predicate Unsettled(s: Session, x: Item) {
    x in Tail(s) || exists k :: 0 <= k < |s.batches| && k !in s.settled && x in s.batches[k]
  }

  lemma BatchIsApart(s: Session, k: nat, x: Item, y: Item)
    requires DistinctTickets(Line(s)) && k < |s.batches| && x in s.batches[k]
    requires y in Tail(s) || exists j :: 0 <= j < |s.batches| && j != k && y in s.batches[j]
    ensures x.ticket != y.ticket
  {
    LineSplit(s, k);
    var before, after := Flatten(s.batches[..k]), Flatten(s.batches[k + 1..]) + Tail(s);
    if y !in Tail(s) {
      var j :| 0 <= j < |s.batches| && j != k && y in s.batches[j];
      if j < k {
        assert s.batches[..k][j] == s.batches[j];
        FlattenHas(s.batches[..k], j, y);
      } else {
        assert s.batches[k + 1..][j - k - 1] == s.batches[j];
        FlattenHas(s.batches[k + 1..], j - k - 1, y);
      }
    }
    PartsAreApart(before, s.batches[k], after, x, y);
  }

  lemma BatchIsDistinct(s: Session, k: nat)
    requires DistinctTickets(Line(s)) && k < |s.batches|
    ensures DistinctTickets(s.batches[k])
  {
    LineSplit(s, k);
    var a := Flatten(s.batches[..k]);
    forall i, j | 0 <= i < j < |s.batches[k]| ensures s.batches[k][i].ticket != s.batches[k][j].ticket {
      assert Line(s)[|a| + i] == s.batches[k][i] && Line(s)[|a| + j] == s.batches[k][j];
    }
  }

  // --------------------------------------------------------------- every run

  ghost predicate Budgeted(c: Config, s: Session) {
    && Sound(s.budget) && s.budget.capacity == c.maxBufferedBytes && AsAsked(c, s.asked, s.budget)
    && (forall t :: t in s.asked && s.asked[t].Record? ==> Sendable(c, s.asked[t].size))
    && s.started <= |s.batches| && DistinctTickets(s.pushed)
    && (forall i :: 0 <= i < |s.pushed| ==> s.pushed[i].ticket in s.asked && s.asked[s.pushed[i].ticket] == Record(s.pushed[i].size))
    && (forall x :: Unsettled(s, x) ==> Holds(s.budget, Share(x)))
  }

  /** Moving records along the line changes nothing about which of them are unsettled. */
  ghost predicate SameUnsettled(s: Session, t: Session) {
    && t.budget == s.budget && t.asked == s.asked && t.pushed == s.pushed && t.settled == s.settled
    && s.started <= t.started <= |t.batches|
    && |s.batches| <= |t.batches| && t.batches[..|s.batches|] == s.batches
    && Line(t) == Line(s)
  }

  lemma CancelPrefix(a: seq<Item>, b: seq<Item>, c: seq<Item>)
    requires a + b == a + c
    ensures b == c
  {
    assert (a + b)[|a|..] == b && (a + c)[|a|..] == c;
  }

  /** The records a batch gained since came from the tail. */
  lemma TailShrinks(s: Session, t: Session)
    requires SameUnsettled(s, t)
    ensures Tail(s) == Flatten(t.batches[|s.batches|..]) + Tail(t)
  {
    var n := |s.batches|;
    var added := t.batches[n..];
    assert t.batches == s.batches + added;
    FlattenConcat(s.batches, added);
    LineTail(s);
    LineTail(t);
    assert Flatten(s.batches) + Flatten(added) + Tail(t) == Flatten(s.batches) + (Flatten(added) + Tail(t));
    CancelPrefix(Flatten(s.batches), Tail(s), Flatten(added) + Tail(t));
  }

  lemma LineTail(s: Session)
    ensures Line(s) == Flatten(s.batches) + Tail(s)
  {
  }

  lemma UnsettledStays(s: Session, t: Session, x: Item)
    requires SameUnsettled(s, t) && Unsettled(t, x)
    ensures Unsettled(s, x)
  {
    var n := |s.batches|;
    TailShrinks(s, t);
    if x !in Tail(t) {
      var k :| 0 <= k < |t.batches| && k !in t.settled && x in t.batches[k];
      if k >= n {
        assert t.batches[n..][k - n] == t.batches[k];
        FlattenHas(t.batches[n..], k - n, x);
      } else {
        assert s.batches[k] == t.batches[k];
      }
    }
  }

  lemma MovingKeepsBudget(c: Config, s: Session, t: Session)
    requires Budgeted(c, s) && SameUnsettled(s, t)
    ensures Budgeted(c, t)
  {
    forall x | Unsettled(t, x) ensures Holds(t.budget, Share(x)) {
      UnsettledStays(s, t, x);
    }
  }

  lemma AskKeepsBudget(c: Config, s: Session, ticket: nat, ask: Ask)
    requires Budgeted(c, s) && ticket !in s.asked && (ask.Record? ==> Sendable(c, ask.size))
    ensures Budgeted(c, s.(asked := s.asked[ticket := ask], budget := Acquire(s.budget, Waiter(ticket, Amount(c, ask)))))
  {
    var w := Waiter(ticket, Amount(c, ask));
    var t := s.(asked := s.asked[ticket := ask], budget := Acquire(s.budget, w));
    AcquireIsSound(s.budget, w);
    forall x | Unsettled(t, x) ensures Holds(t.budget, Share(x)) {
      assert Unsettled(s, x);
    }
  }

  lemma CloseKeepsBudget(c: Config, s: Session, ticket: nat)
    requires Budgeted(c, s) && ticket !in s.asked
    ensures Budgeted(c, Next(c, s, Close(ticket)))
  {
    var t := Next(c, s, Close(ticket));
    var asking := t.(closed := s.closed);
    AskKeepsBudget(c, s, ticket, Closing);
    forall x | Unsettled(t, x) ensures Holds(t.budget, Share(x)) {
      assert Unsettled(asking, x);
    }
  }

  lemma PushKeepsBudget(c: Config, s: Session, ticket: nat)
    requires Budgeted(c, s) && Enabled(c, s, Push(ticket))
    ensures Budgeted(c, Next(c, s, Push(ticket)))
  {
    var t := Next(c, s, Push(ticket));
    var x := Item(ticket, s.asked[ticket].size);
    forall y | Unsettled(t, y) ensures Holds(t.budget, Share(y)) {
      if y != x { assert Unsettled(s, y); }
    }
  }

  lemma GiveBackKeepsBudget(c: Config, s: Session, ticket: nat)
    requires Budgeted(c, s) && Line(s) == s.pushed && ticket in s.budget.held && ticket in s.asked && !s.asked[ticket].Record?
    ensures Budgeted(c, GiveBack(c, s, ticket))
  {
    var w := Waiter(ticket, c.maxBufferedBytes);
    var t := GiveBack(c, s, ticket);
    ReleaseIsSound(s.budget, w);
    ReleaseAsAsked(c, s.asked, s.budget, w);
    ReleaseKeepsCapacity(s.budget, w);
    forall x | Unsettled(t, x) ensures Holds(t.budget, Share(x)) {
      assert Unsettled(s, x);
      UnsettledWasPushed(s, x);
      ReleaseAt(s.budget, w, x.ticket);
    }
  }

  lemma AwakenMoves(c: Config, s: Session)
    requires InOrder(c, s) && s.started <= |s.batches|
    ensures SameUnsettled(s, Awaken(s))
  {
    AwakenInOrder(c, s);
  }

  lemma {:induction false} PumpKeepsCapacity(p: Permits)
    ensures Pump(p).capacity == p.capacity
    decreases |p.queue|
  {
    if p.queue != [] && p.available >= p.queue[0].n { PumpKeepsCapacity(Serve(p)); }
  }

  lemma ReleaseKeepsCapacity(p: Permits, w: Waiter)
    ensures Release(p, w).capacity == p.capacity
  {
    PumpKeepsCapacity(p.(available := p.available + w.n, held := p.held - {w.ticket}));
  }

  lemma {:induction false} ReleaseAllKeepsCapacity(p: Permits, xs: seq<Item>)
    ensures ReleaseAll(p, xs).capacity == p.capacity
    decreases |xs|
  {
    if xs != [] {
      ReleaseKeepsCapacity(p, Share(xs[0]));
      ReleaseAllKeepsCapacity(Release(p, Share(xs[0])), xs[1..]);
    }
  }

  lemma UnsettledWasPushed(s: Session, x: Item)
    requires Line(s) == s.pushed && Unsettled(s, x)
    ensures x in s.pushed
  {
    assert Line(s) == Flatten(s.batches) + Tail(s);
    if x !in Tail(s) {
      var k :| 0 <= k < |s.batches| && k !in s.settled && x in s.batches[k];
      FlattenHas(s.batches, k, x);
    }
  }

  lemma SettleKeepsBudget(c: Config, s: Session, k: nat)
    requires Budgeted(c, s) && InOrder(c, s) && Enabled(c, s, Settle(k))
    ensures Budgeted(c, Next(c, s, Settle(k)))
  {
    var t := Next(c, s, Settle(k));
    var xs := s.batches[k];
    BatchIsDistinct(s, k);
    forall i | 0 <= i < |xs| ensures Holds(s.budget, Share(xs[i])) {
      assert xs[i] in xs;
      assert Unsettled(s, xs[i]);
    }
    ReleaseAllKeeps(c, s.asked, s.budget, xs);
    ReleaseAllKeepsCapacity(s.budget, xs);
    forall y | Unsettled(t, y) ensures Holds(t.budget, Share(y)) {
      assert Unsettled(s, y);
      forall i | 0 <= i < |xs| ensures xs[i].ticket != y.ticket {
        BatchIsApart(s, k, xs[i], y);
      }
      ReleaseAllSpares(s.budget, xs, y);
    }
  }

  ghost predicate Inv(c: Config, s: Session) {
    InOrder(c, s) && Budgeted(c, s)
  }

  predicate Moves(e: Event) {
    e.Receive? || e.Resume? || e.Collect? || e.Expire? || e.SendBatch?
  }

  lemma StepMoves(c: Config, s: Session, e: Event)
    requires Enabled(c, s, e) && Moves(e) && s.started <= |s.batches|
    ensures var t := Next(c, s, e);
            && t.budget == s.budget && t.asked == s.asked && t.pushed == s.pushed && t.settled == s.settled
            && s.started <= t.started <= |t.batches|
            && |s.batches| <= |t.batches| && t.batches[..|s.batches|] == s.batches
  {
  }

  lemma StepKeepsBudget(c: Config, s: Session, e: Event)
    requires Inv(c, s) && Enabled(c, s, e) && InOrder(c, Next(c, s, e))
    ensures Budgeted(c, Next(c, s, e))
  {
    match e
    case AskSend(t, size) => if Sendable(c, size) { AskKeepsBudget(c, s, t, Record(size)); }
    case AskFlush(t) => AskKeepsBudget(c, s, t, Flush);
    case Push(t) => PushKeepsBudget(c, s, t);
    case FlushEnds(t) => GiveBackKeepsBudget(c, s, t);
    case Close(t) => CloseKeepsBudget(c, s, t);
    case CloseEnds(t) =>
      GiveBackKeepsBudget(c, s, t);
      AwakenMoves(c, GiveBack(c, s, t));
      MovingKeepsBudget(c, GiveBack(c, s, t), Awaken(GiveBack(c, s, t)));
    case Settle(k) => SettleKeepsBudget(c, s, k);
    case Receive | Resume | Collect | Expire | SendBatch =>
      StepMoves(c, s, e);
      MovingKeepsBudget(c, s, Next(c, s, e));
  }

  lemma StepKeeps(c: Config, s: Session, e: Event)
    requires Inv(c, s) && Enabled(c, s, e)
    ensures Inv(c, Next(c, s, e))
  {
    StepInOrder(c, s, e);
    StepKeepsBudget(c, s, e);
  }

  lemma {:induction false} RunKeeps(c: Config, s: Session, es: seq<Event>, t: Session)
    requires Runs(c, s, es, t) && Inv(c, s)
    ensures Inv(c, t)
    decreases |es|
  {
    if es != [] {
      StepKeeps(c, s, es[0]);
      RunKeeps(c, Next(c, s, es[0]), es[1..], t);
    }
  }

  lemma OpenKeeps(c: Config)
    ensures Inv(c, Open(c))
  {
    var s := Open(c);
    assert Line(s) == [] && Tail(s) == [];
    assert forall x :: !Unsettled(s, x);
  }

  /** In every run, batches hold what was pushed in push order, each record in one place, every batch is
      non-empty and within both limits. */
  lemma BatchesKeepOrder(c: Config, es: seq<Event>, s: Session)
    requires Runs(c, Open(c), es, s)
    ensures Flatten(s.batches) + s.batch + Handed(s) + s.items == s.pushed
    ensures DistinctTickets(s.pushed)
    ensures forall k :: 0 <= k < |s.batches| ==> WithinLimits(c, s.batches[k])
  {
    OpenKeeps(c);
    RunKeeps(c, Open(c), es, s);
  }

  /** In every run, free and held budget make up the capacity, and nobody waits who could be served. */
  lemma BudgetHolds(c: Config, es: seq<Event>, s: Session)
    requires Runs(c, Open(c), es, s)
    ensures s.budget.available + Total(s.budget.held) == c.maxBufferedBytes
    ensures s.budget.queue != [] ==> s.budget.available < s.budget.queue[0].n
  {
    OpenKeeps(c);
    RunKeeps(c, Open(c), es, s);
  }

  /** When a flush or a close is granted, every record pushed so far is settled and no other record is
      admitted. */
  lemma FlushMeansSettled(c: Config, es: seq<Event>, s: Session, t: nat)
    requires Runs(c, Open(c), es, s) && t in s.budget.held && t in s.asked && !s.asked[t].Record?
    ensures s.batch == [] && s.handed.None? && s.items == []
    ensures forall k :: 0 <= k < |s.batches| ==> k in s.settled
    ensures forall u :: u in s.budget.held ==> u in s.asked && !s.asked[u].Record?
  {
    OpenKeeps(c);
    RunKeeps(c, Open(c), es, s);
    WholeBudgetMeansSettled(c, s, t);
  }

  lemma WholeBudgetMeansSettled(c: Config, s: Session, t: nat)
    requires Inv(c, s) && t in s.budget.held && t in s.asked && !s.asked[t].Record?
    ensures s.batch == [] && s.handed.None? && s.items == []
    ensures forall k :: 0 <= k < |s.batches| ==> k in s.settled
    ensures forall u :: u in s.budget.held ==> u in s.asked && !s.asked[u].Record?
  {
    forall x ensures !Unsettled(s, x) {
      if Unsettled(s, x) {
        UnsettledWasPushed(s, x);
        WholeBudgetIsAlone(s.budget, t, x.ticket);
      }
    }
    assert Tail(s) == [] by {
      if Tail(s) != [] { assert Unsettled(s, Tail(s)[0]); }
    }
    forall k | 0 <= k < |s.batches| ensures k in s.settled {
      if k !in s.settled {
        assert WithinLimits(c, s.batches[k]);
        assert Unsettled(s, s.batches[k][0]);
      }
    }
    forall u | u in s.budget.held ensures u in s.asked && !s.asked[u].Record? {
      if u != t { WholeBudgetIsAlone(s.budget, t, u); }
    }
  }

  // ------------------------------------------------------------- sequencing

  /** Batches are sent in number order; the one numbered 0 settles before another is even collected. */
  ghost predicate Sequenced(c: Config, s: Session) {
    && s.started == |s.batches| - (if s.runner.Sending? then 1 else 0)
    && (s.runner.Sending? ==> s.batches != [])
    && (s.runner.First? ==> s.started == 1 && 0 !in s.settled)
    && (forall k :: k in s.settled ==> k < s.started)
    && ((s.started >= 1 && !s.runner.First?) || s.started >= 2 ==> 0 in s.settled)
    && |InFlight(s)| <= c.maxInflight
  }

  lemma SettledInFlight(s: Session, t: Session, k: nat)
    requires t.started == s.started && t.settled == s.settled + {k} && k < s.started && k !in s.settled
    ensures |InFlight(t)| == |InFlight(s)| - 1
  {
    assert k in InFlight(s);
    assert InFlight(t) == InFlight(s) - {k};
  }

  lemma StartedInFlight(s: Session, t: Session)
    requires t.started == s.started + 1 && t.settled == s.settled && forall k :: k in s.settled ==> k < s.started
    ensures |InFlight(t)| == |InFlight(s)| + 1
  {
    assert s.started !in InFlight(s);
    assert InFlight(t) == InFlight(s) + {s.started};
  }

  lemma StepSequenced(c: Config, s: Session, e: Event)
    requires Sequenced(c, s) && Enabled(c, s, e) && c.maxInflight >= 1 && RunnerFits(c, s)
    ensures Sequenced(c, Next(c, s, e))
  {
    var t := Next(c, s, e);
    if e.SendBatch? {
      StartedInFlight(s, t);
      if |s.batches| == 1 { assert InFlight(s) == {}; }
    } else if e.Settle? {
      SettledInFlight(s, t, e.number);
    } else {
      assert InFlight(t) == InFlight(s);
    }
  }

  lemma {:induction false} RunSequenced(c: Config, s: Session, es: seq<Event>, t: Session)
    requires Runs(c, s, es, t) && Inv(c, s) && Sequenced(c, s) && c.maxInflight >= 1
    ensures Sequenced(c, t)
    decreases |es|
  {
    if es != [] {
      StepSequenced(c, s, es[0]);
      StepKeeps(c, s, es[0]);
      RunSequenced(c, Next(c, s, es[0]), es[1..], t);
    }
  }

  /** In every run: no batch is sent before all with lower numbers were, none besides 0 before 0 settled,
      and never more than the allowed number are under way. */
  lemma BatchesAreSequenced(c: Config, es: seq<Event>, s: Session)
    requires Runs(c, Open(c), es, s) && c.maxInflight >= 1
    ensures |s.batches| - 1 <= s.started <= |s.batches|
    ensures s.started >= 2 ==> 0 in s.settled
    ensures |InFlight(s)| <= c.maxInflight
  {
    OpenKeeps(c);
    assert InFlight(Open(c)) == {};
    RunSequenced(c, Open(c), es, s);
  }

  // ------------------------------------------------- collecting without linger

  /** The queue of records, as the collecting loop works on it. */
  class Outbox {
    var items: seq<Item>

    constructor ()
      ensures items == []
    {
      items := [];
    }

    method TryRecv() returns (item: Option<Item>)
      modifies this
      ensures match item
              case Some(x) => old(items) == [x] + items
              case None => old(items) == [] && items == []
    {
      if items == [] {
        return None;
      }
      item := Some(items[0]);
      items := items[1..];
    }

    /** Takes what fits behind the first record: a prefix of the queue, and as much of it as the limits
        allow. The record that does not fit goes back to the head. */
    method CollectNow(c: Config, first: Item) returns (batch: seq<Item>)
      requires first.size <= c.maxBatchBytes
      modifies this
      ensures batch + items == [first] + old(items) && WithinLimits(c, batch)
      ensures items == [] || |batch| >= c.maxBatchRecords || Bytes(batch) >= c.maxBatchBytes
              || Bytes(batch) + items[0].size > c.maxBatchBytes
    {
      var bytes := first.size;
      batch := [first];
      BytesAppend([], first);
      assert [] + [first] == [first];
      while |batch| < c.maxBatchRecords && bytes < c.maxBatchBytes
        invariant batch + items == [first] + old(items) && WithinLimits(c, batch) && bytes == Bytes(batch)
        decreases |items|
      {
        ghost var before := items;
        var item := TryRecv();
        if item.None? {
          return;
        }
        assert before == [item.value] + items;
        if bytes + item.value.size > c.maxBatchBytes {
          items := [item.value] + items;
          return;
        }
        BytesAppend(batch, item.value);
        assert batch + before == batch + [item.value] + items;
        bytes := bytes + item.value.size;
        batch := batch + [item.value];
      }
    }
  }
}
