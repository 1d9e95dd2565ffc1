/** A connection as a whole: a reader that numbers requests under a permit each, tasks and a produce
    worker that answer them in any order, bounded channels between them, and the ordered writer. */
module Pipeline {
  import opened Prelude
  import opened OrderedWriter

  /** `reader`: whether the reader is still running, and whether it holds a permit for the next request. */
  datatype Reader = Waiting | Holding | Stopped

  datatype Connection = Connection(
    permits: nat,                   // free permits
    reader: Reader,
    sequence: nat,                  // the number the next request gets
    tasks: set<nat>,                // requests being handled
    produceQueue: seq<nat>,         // produce requests not yet dispatched
    producing: Option<nat>,         // the produce request being dispatched
    channel: seq<(nat, Reply)>,     // replies on their way to the writer
    writer: Writer,
    replies: map<nat, Reply>,       // history: every reply handed to the channel while it was open
    produced: seq<nat>,             // history: produce requests in the order they were read
    dispatched: seq<nat>)           // history: produce requests in the order they were dispatched

  function Capacity(maxInFlight: nat): nat {
    if maxInFlight > 1 then maxInFlight else 1
  }

  function Start(maxInFlight: nat): Connection {
    Connection(Capacity(maxInFlight), Waiting, 0, {}, [], None, [], START, map[], [], [])
  }

  /** How the reader deals with a request: it answers, goes on or stops; or hands it to a task or the worker. */
  datatype Work = AnswerNow(reply: Reply) | AnswerAndStop(last: Reply) | Spawn | Produce

  datatype Event =
    | TakePermit
    | ReadFrame(work: Work)
    | ReadEnds                        // end of input, a timeout or a read error
    | Finish(task: nat, answer: Reply)
    | ProduceBegins
    | ProduceDefers                   // the reply will come from a task of its own
    | ProduceFinishes(result: Reply)
    | WriterReceives(accepts: nat)

  predicate Enabled(c: Connection, e: Event) {
    match e
    case TakePermit => c.reader.Waiting? && c.permits > 0
    case ReadFrame(_) => c.reader.Holding?
    case ReadEnds => c.reader.Holding?
    case Finish(t, _) => t in c.tasks
    case ProduceBegins => c.producing.None? && c.produceQueue != []
    case ProduceDefers => c.producing.Some?
    case ProduceFinishes(_) => c.producing.Some?
    case WriterReceives(_) => c.writer.status.Open? && c.channel != []
  }

  /** A reply goes into the channel, or nowhere once the writer is gone. */
  function Send(c: Connection, sequence: nat, reply: Reply): Connection {
    if c.writer.status.Open? then
      c.(channel := c.channel + [(sequence, reply)], replies := c.replies[sequence := reply])
    else c
  }

  /** The writer takes a reply; every reply it is through with gives its permit back. When the writer ends,
      so does the reader, and what is in the channel is dropped. */
  function Receive(c: Connection, accepts: nat): Connection
    requires c.channel != []
  {
    var w := Deliver(c.writer, c.channel[0].0, c.channel[0].1, accepts);
    if w.status.Open? then
      c.(channel := c.channel[1..], writer := w, permits := c.permits + (if w.next > c.writer.next then w.next - c.writer.next else 0))
    else c.(channel := [], writer := w, reader := Stopped)
  }

  function ReadWork(c: Connection, work: Work): Connection {
    var seqNo := c.sequence;
    var read := c.(sequence := c.sequence + 1, reader := Waiting);
    match work
    case AnswerNow(reply) => Send(read, seqNo, reply)
    case AnswerAndStop(reply) => Send(read.(reader := Stopped), seqNo, reply)
    case Spawn => read.(tasks := read.tasks + {seqNo})
    case Produce => read.(produceQueue := read.produceQueue + [seqNo], produced := read.produced + [seqNo])
  }

  function Next(c: Connection, e: Event): Connection
    requires Enabled(c, e)
  {
    match e
    case TakePermit => c.(permits := c.permits - 1, reader := Holding)
    case ReadFrame(work) => ReadWork(c, work)
    case ReadEnds => c.(permits := c.permits + 1, reader := Stopped)
    case Finish(t, reply) => Send(c.(tasks := c.tasks - {t}), t, reply)
    case ProduceBegins =>
      c.(produceQueue := c.produceQueue[1..], producing := Some(c.produceQueue[0]),
         dispatched := c.dispatched + [c.produceQueue[0]])
    case ProduceDefers => c.(producing := None, tasks := c.tasks + {c.producing.value})
    case ProduceFinishes(reply) => Send(c.(producing := None), c.producing.value, reply)
    case WriterReceives(accepts) => Receive(c, accepts)
  }

  ghost predicate Runs(c: Connection, es: seq<Event>, d: Connection)
    decreases |es|
  {
    if es == [] then c == d else Enabled(c, es[0]) && Runs(Next(c, es[0]), es[1..], d)
  }

  // ------------------------------------------------------------ accounting

  function Numbers(q: seq<(nat, Reply)>): seq<nat> {
    seq(|q|, i requires 0 <= i < |q| => q[i].0)
  }

  function One(b: bool): nat { if b then 1 else 0 }

  /** In how many places an unanswered request is. */
  ghost function Places(c: Connection, i: nat): nat {
    One(i in c.tasks) + multiset(c.produceQueue)[i] + One(c.producing == Some(i))
    + multiset(Numbers(c.channel))[i] + One(i in c.writer.pending)
  }

  /** How many unanswered requests there are. */
  function Outstanding(c: Connection): nat {
    |c.tasks| + |c.produceQueue| + One(c.producing.Some?) + |c.channel| + |c.writer.pending|
  }

  /** Every request past the last one written is in exactly one place, and no other is anywhere. */
  ghost predicate Placed(c: Connection) {
    && c.writer.next <= c.sequence
    && forall i: nat :: Places(c, i) == One(c.writer.next <= i < c.sequence)
  }

  /** While the writer is open: the next request to write is not in its buffer, and every unanswered
      request holds one permit. */
  ghost predicate Accounted(c: Connection, capacity: nat) {
    && Placed(c)
    && c.writer.next !in c.writer.pending
    && Outstanding(c) == c.sequence - c.writer.next
    && c.permits + One(c.reader.Holding?) + Outstanding(c) == capacity
  }

  lemma SendPlaces(c: Connection, x: nat, reply: Reply, i: nat)
    requires c.writer.status.Open?
    ensures Places(Send(c, x, reply), i) == Places(c, i) + One(i == x)
  {
    assert Numbers(c.channel + [(x, reply)]) == Numbers(c.channel) + [x];
  }

  /** A new request is nowhere yet. */
  lemma ReadAccounts(c: Connection, work: Work, capacity: nat)
    requires Accounted(c, capacity) && c.writer.status.Open? && c.reader.Holding?
    ensures Accounted(ReadWork(c, work), capacity)
  {
    var x, d := c.sequence, ReadWork(c, work);
    assert Places(c, x) == 0;
    forall i: nat ensures Places(d, i) == Places(c, i) + One(i == x) {
      match work
      case AnswerNow(reply) => SendPlaces(c.(sequence := x + 1, reader := Waiting), x, reply, i);
      case AnswerAndStop(reply) => SendPlaces(c.(sequence := x + 1, reader := Stopped), x, reply, i);
      case Spawn =>
      case Produce =>
    }
  }

  lemma FinishAccounts(c: Connection, x: nat, reply: Reply, capacity: nat)
    requires Accounted(c, capacity) && c.writer.status.Open? && x in c.tasks
    ensures Accounted(Next(c, Finish(x, reply)), capacity)
  {
    var freed := c.(tasks := c.tasks - {x});
    forall i: nat ensures Places(Next(c, Finish(x, reply)), i) == Places(c, i) {
      SendPlaces(freed, x, reply, i);
    }
  }

  lemma BeginAccounts(c: Connection, capacity: nat)
    requires Accounted(c, capacity) && Enabled(c, ProduceBegins)
    ensures Accounted(Next(c, ProduceBegins), capacity)
  {
    var d := Next(c, ProduceBegins);
    assert c.produceQueue == [c.produceQueue[0]] + c.produceQueue[1..];
    forall i: nat ensures Places(d, i) == Places(c, i) {
    }
  }

  lemma DeferAccounts(c: Connection, capacity: nat)
    requires Accounted(c, capacity) && Enabled(c, ProduceDefers)
    ensures Accounted(Next(c, ProduceDefers), capacity)
  {
    var d := Next(c, ProduceDefers);
    assert Places(c, c.producing.value) <= 1;
    forall i: nat ensures Places(d, i) == Places(c, i) {
    }
  }

  lemma ProducedAccounts(c: Connection, reply: Reply, capacity: nat)
    requires Accounted(c, capacity) && c.writer.status.Open? && c.producing.Some?
    ensures Accounted(Next(c, ProduceFinishes(reply)), capacity)
  {
    forall i: nat ensures Places(Next(c, ProduceFinishes(reply)), i) == Places(c, i) {
      SendPlaces(c.(producing := None), c.producing.value, reply, i);
    }
  }

  /** Draining takes the next requests out of the buffer, one after the other. */
  ghost predicate Took(w: Writer, d: Writer) {
    && w.next <= d.next && |d.pending| == |w.pending| - (d.next - w.next)
    && d.next !in d.pending
    && (forall i: nat :: i in d.pending <==> i in w.pending && !(w.next <= i < d.next))
    && (forall i: nat :: w.next <= i < d.next ==> i in w.pending)
  }

  lemma OneFewer(m: map<nat, Reply>, k: nat)
    requires k in m
    ensures |m - {k}| == |m| - 1
  {
    assert (m - {k}).Keys == m.Keys - {k};
  }

  lemma TookOneMore(w: Writer, v: Writer, d: Writer)
    requires w.next in w.pending && v.next == w.next + 1 && v.pending == w.pending - {w.next} && Took(v, d)
    ensures Took(w, d)
  {
    OneFewer(w.pending, w.next);
    forall i: nat ensures i in d.pending <==> i in w.pending && !(w.next <= i < d.next) {
      assert i in v.pending <==> i in w.pending && i != w.next;
    }
    forall i: nat | w.next <= i < d.next ensures i in w.pending {
      if i != w.next { assert i in v.pending; }
    }
  }

  /** The writer past the slot that is next. */
  function Advance(w: Writer): Writer
    requires w.next in w.pending
  {
    w.(next := w.next + 1, pending := w.pending - {w.next},
       written := if w.pending[w.next].Frame? then w.written + [w.pending[w.next].bytes] else w.written)
  }

  lemma DrainAdvances(w: Writer, accepts: nat)
    requires w.status.Open? && Drain(w, accepts).status.Open? && w.next in w.pending
    ensures !w.pending[w.next].Close? && (w.pending[w.next].Frame? ==> accepts > 0)
    ensures Drain(w, accepts) == Drain(Advance(w), if w.pending[w.next].Frame? then accepts - 1 else accepts)
  {
  }

  lemma {:induction false} DrainTakes(w: Writer, accepts: nat)
    requires w.status.Open? && Drain(w, accepts).status.Open?
    ensures Took(w, Drain(w, accepts))
    decreases |w.pending|
  {
    if w.next in w.pending {
      DrainAdvances(w, accepts);
      DrainTakes(Advance(w), if w.pending[w.next].Frame? then accepts - 1 else accepts);
      TookOneMore(w, Advance(w), Drain(w, accepts));
    }
  }

  /** What is first in the channel is not in the buffer, and is still to be written. */
  lemma HeadIsAwaited(c: Connection)
    requires Placed(c) && c.channel != []
    ensures c.channel[0].0 !in c.writer.pending && c.writer.next <= c.channel[0].0 < c.sequence
  {
    var x := c.channel[0].0;
    assert Numbers(c.channel)[0] == x;
    assert Places(c, x) <= 1;
  }

  lemma ReceivePlaces(c: Connection, w: Writer, d: Connection, i: nat)
    requires Placed(c) && c.channel != [] && w.next == c.writer.next
    requires w.pending.Keys == c.writer.pending.Keys + {c.channel[0].0} && Took(w, d.writer)
    requires d == c.(channel := c.channel[1..], writer := d.writer, permits := d.permits)
    ensures Places(d, i) == if c.writer.next <= i < d.writer.next then 0 else Places(c, i)
  {
    var x := c.channel[0].0;
    HeadIsAwaited(c);
    assert Numbers(c.channel) == [x] + Numbers(c.channel[1..]);
    assert Places(c, i) <= 1;
    assert i in w.pending <==> i in c.writer.pending || i == x;
  }

  /** `w` is the writer with the arrival in its buffer, `d` the connection once it has drained. */
  ghost predicate Received(c: Connection, w: Writer, d: Connection) {
    && c.channel != [] && w.next == c.writer.next
    && w.pending.Keys == c.writer.pending.Keys + {c.channel[0].0}
    && d == c.(channel := c.channel[1..], writer := d.writer,
               permits := c.permits + (if d.writer.next > w.next then d.writer.next - w.next else 0))
  }

  /** The writer with the first reply of the channel in its buffer. */
  function Buffered(c: Connection): Writer
    requires c.channel != []
  {
    c.writer.(pending := c.writer.pending[c.channel[0].0 := c.channel[0].1])
  }

  lemma ReceiveDrains(c: Connection, accepts: nat)
    requires c.channel != [] && c.writer.status.Open? && Receive(c, accepts).writer.status.Open?
    ensures Received(c, Buffered(c), Receive(c, accepts)) && Receive(c, accepts).writer == Drain(Buffered(c), accepts)
  {
  }

  /** A reply leaves the channel for the buffer, and every reply leaving the buffer gives its permit back. */
  lemma ReceiveAccounts(c: Connection, w: Writer, d: Connection, capacity: nat)
    requires Accounted(c, capacity) && Received(c, w, d) && Took(w, d.writer)
    ensures Accounted(d, capacity)
  {
    HeadIsAwaited(c);
    assert |w.pending.Keys| == |c.writer.pending.Keys| + 1;
    TakenWasPlaced(c, w, d.writer);
    ReceivedIsPlaced(c, w, d);
  }

  lemma ReceivedIsPlaced(c: Connection, w: Writer, d: Connection)
    requires Placed(c) && c.channel != [] && w.next == c.writer.next
    requires w.pending.Keys == c.writer.pending.Keys + {c.channel[0].0} && Took(w, d.writer) && d.writer.next <= c.sequence
    requires d == c.(channel := c.channel[1..], writer := d.writer, permits := d.permits)
    ensures Placed(d)
  {
    forall i: nat ensures Places(d, i) == One(d.writer.next <= i < d.sequence) {
      ReceivePlaces(c, w, d, i);
      assert Places(c, i) == One(c.writer.next <= i < c.sequence);
    }
  }

  /** Nothing is taken out of the buffer that was not read from the connection. */
  lemma TakenWasPlaced(c: Connection, w: Writer, d: Writer)
    requires Placed(c) && c.channel != [] && w.next == c.writer.next && Took(w, d)
    requires w.pending.Keys == c.writer.pending.Keys + {c.channel[0].0}
    ensures d.next <= c.sequence
  {
    HeadIsAwaited(c);
    assert Places(c, c.sequence) == 0;
    assert c.sequence !in w.pending;
  }

  lemma StepAccounts(c: Connection, e: Event, capacity: nat)
    requires Enabled(c, e) && (c.writer.status.Open? ==> Accounted(c, capacity))
    ensures Next(c, e).writer.status.Open? ==> Accounted(Next(c, e), capacity)
  {
    if c.writer.status.Open? {
      match e
      case TakePermit => forall i: nat ensures Places(Next(c, e), i) == Places(c, i) { }
      case ReadFrame(work) => ReadAccounts(c, work, capacity);
      case ReadEnds => forall i: nat ensures Places(Next(c, e), i) == Places(c, i) { }
      case Finish(t, reply) => FinishAccounts(c, t, reply, capacity);
      case ProduceBegins => BeginAccounts(c, capacity);
      case ProduceDefers => DeferAccounts(c, capacity);
      case ProduceFinishes(reply) => ProducedAccounts(c, reply, capacity);
      case WriterReceives(accepts) =>
        if Receive(c, accepts).writer.status.Open? {
          ReceiveDrains(c, accepts);
          DrainTakes(Buffered(c), accepts);
          ReceiveAccounts(c, Buffered(c), Receive(c, accepts), capacity);
        }
    }
  }

  // ------------------------------------------------------- replies in order

  /** The replies the writer has received: all that were sent but those still in the channel. */
  ghost function Arrived(c: Connection): map<nat, Reply> {
    map i | i in c.replies && i !in Numbers(c.channel) :: c.replies[i]
  }

  /** Replies exist for what is written, buffered or in the channel, and for nothing else. */
  ghost predicate Recorded(c: Connection) {
    && (forall i: nat :: i in c.replies <==> i < c.writer.next || i in Numbers(c.channel) || i in c.writer.pending)
    && (forall k :: 0 <= k < |c.channel| ==> c.channel[k].0 in c.replies && c.replies[c.channel[k].0] == c.channel[k].1)
  }

  ghost predicate Faithful(c: Connection) {
    if c.writer.status.Open? then Recorded(c) && Draining(c.writer, Arrived(c)) else Tracks(c.writer, c.replies)
  }

  lemma SendIsFaithful(c: Connection, x: nat, reply: Reply)
    requires c.writer.status.Open? && Faithful(c) && x !in c.replies
    ensures Faithful(Send(c, x, reply))
  {
    var d := Send(c, x, reply);
    assert Numbers(d.channel) == Numbers(c.channel) + [x];
    assert Arrived(d) == Arrived(c);
  }

  /** A request still being handled has no reply yet. */
  lemma HandledIsUnanswered(c: Connection, x: nat)
    requires Placed(c) && Recorded(c)
    requires x == c.sequence || x in c.tasks || c.producing == Some(x)
    ensures x !in c.replies
  {
    assert Places(c, x) <= 1;
    assert x in Numbers(c.channel) <==> multiset(Numbers(c.channel))[x] > 0;
  }

  lemma ArrivedNext(c: Connection, rest: Connection)
    requires Placed(c) && Recorded(c) && c.channel != [] && rest == c.(channel := c.channel[1..])
    ensures Arrived(rest) == Arrived(c)[c.channel[0].0 := c.channel[0].1] && c.channel[0].0 !in Arrived(c)
  {
    var x := c.channel[0].0;
    assert Numbers(c.channel) == [x] + Numbers(rest.channel);
    assert Places(c, x) <= 1;
    assert multiset(Numbers(c.channel))[x] == 1 + multiset(Numbers(rest.channel))[x];
    assert x in Numbers(rest.channel) <==> multiset(Numbers(rest.channel))[x] > 0;
  }

  lemma BufferedIsDraining(c: Connection)
    requires Placed(c) && c.writer.status.Open? && Faithful(c) && c.channel != []
    ensures Draining(Buffered(c), Arrived(c.(channel := c.channel[1..])))
  {
    var x := c.channel[0].0;
    HeadIsAwaited(c);
    ArrivedNext(c, c.(channel := c.channel[1..]));
    FramesGrow(Arrived(c), Arrived(c.(channel := c.channel[1..])), c.writer.next);
  }

  /** With the output fixed, further replies change nothing about it. */
  lemma TracksMore(w: Writer, a: map<nat, Reply>, b: map<nat, Reply>)
    requires Tracks(w, a) && !w.status.Open? && forall i :: i in a ==> i in b && a[i] == b[i]
    ensures Tracks(w, b)
  {
    FramesGrow(a, b, w.next);
  }

  lemma NumbersAfterHead(q: seq<(nat, Reply)>, i: nat)
    requires q != []
    ensures i in Numbers(q) <==> i == q[0].0 || i in Numbers(q[1..])
  {
    assert Numbers(q) == [q[0].0] + Numbers(q[1..]);
  }

  lemma StillRecordedAt(c: Connection, w: Writer, d: Connection, i: nat)
    requires Recorded(c) && Received(c, w, d) && Took(w, d.writer)
    ensures i in d.replies <==> i < d.writer.next || i in Numbers(d.channel) || i in d.writer.pending
  {
    var x := c.channel[0].0;
    NumbersAfterHead(c.channel, i);
    assert i in w.pending <==> i in c.writer.pending || i == x;
    assert i in d.writer.pending <==> i in w.pending && !(w.next <= i < d.writer.next);
    assert w.next <= i < d.writer.next ==> i in w.pending;
    assert i in c.replies <==> i < c.writer.next || i in Numbers(c.channel) || i in c.writer.pending;
  }

  lemma StillRecorded(c: Connection, w: Writer, d: Connection)
    requires Recorded(c) && Received(c, w, d) && Took(w, d.writer)
    ensures Recorded(d)
  {
    forall i: nat ensures i in d.replies <==> i < d.writer.next || i in Numbers(d.channel) || i in d.writer.pending {
      StillRecordedAt(c, w, d, i);
    }
    forall k | 0 <= k < |d.channel| ensures d.channel[k].0 in d.replies && d.replies[d.channel[k].0] == d.channel[k].1 {
      assert d.channel[k] == c.channel[k + 1];
    }
  }

  lemma ReceiveIsFaithful(c: Connection, accepts: nat)
    requires Placed(c) && c.writer.status.Open? && Faithful(c) && c.channel != []
    ensures Faithful(Receive(c, accepts))
  {
    var rest := c.(channel := c.channel[1..]);
    var d := Receive(c, accepts);
    BufferedIsDraining(c);
    DrainTracks(Buffered(c), Arrived(rest), accepts);
    if d.writer.status.Open? {
      ReceiveDrains(c, accepts);
      DrainTakes(Buffered(c), accepts);
      StillRecorded(c, Buffered(c), d);
      assert Arrived(d) == Arrived(rest);
    } else {
      TracksMore(d.writer, Arrived(rest), c.replies);
    }
  }

  lemma ReadIsFaithful(c: Connection, work: Work)
    requires Placed(c) && c.writer.status.Open? && Faithful(c) && c.reader.Holding?
    ensures Faithful(ReadWork(c, work))
  {
    var read := c.(sequence := c.sequence + 1, reader := Waiting);
    HandledIsUnanswered(c, c.sequence);
    match work
    case AnswerNow(reply) => SendIsFaithful(read, c.sequence, reply);
    case AnswerAndStop(reply) => SendIsFaithful(read.(reader := Stopped), c.sequence, reply);
    case Spawn =>
    case Produce =>
  }

  lemma StepIsFaithful(c: Connection, e: Event, capacity: nat)
    requires Enabled(c, e) && Faithful(c) && (c.writer.status.Open? ==> Accounted(c, capacity))
    ensures Faithful(Next(c, e))
  {
    if c.writer.status.Open? {
      match e
      case ReadFrame(work) => ReadIsFaithful(c, work);
      case Finish(t, reply) =>
        HandledIsUnanswered(c, t);
        SendIsFaithful(c.(tasks := c.tasks - {t}), t, reply);
      case ProduceFinishes(reply) =>
        HandledIsUnanswered(c, c.producing.value);
        SendIsFaithful(c.(producing := None), c.producing.value, reply);
      case WriterReceives(accepts) => ReceiveIsFaithful(c, accepts);
      case TakePermit =>
      case ReadEnds =>
      case ProduceBegins =>
      case ProduceDefers =>
    }
  }

  // --------------------------------------------------------------- every run

  ghost predicate Inv(c: Connection, capacity: nat) {
    && (c.writer.status.Open? ==> Accounted(c, capacity))
    && Faithful(c)
    && c.produced == c.dispatched + c.produceQueue
  }

  lemma StepKeepsOrder(c: Connection, e: Event)
    requires Enabled(c, e) && c.produced == c.dispatched + c.produceQueue
    ensures var d := Next(c, e); d.produced == d.dispatched + d.produceQueue
  {
  }

  lemma StepKeeps(c: Connection, e: Event, capacity: nat)
    requires Enabled(c, e) && Inv(c, capacity)
    ensures Inv(Next(c, e), capacity)
  {
    StepAccounts(c, e, capacity);
    StepIsFaithful(c, e, capacity);
    StepKeepsOrder(c, e);
  }

  lemma {:induction false} RunKeeps(c: Connection, es: seq<Event>, d: Connection, capacity: nat)
    requires Runs(c, es, d) && Inv(c, capacity)
    ensures Inv(d, capacity)
    decreases |es|
  {
    if es != [] {
      StepKeeps(c, es[0], capacity);
      RunKeeps(Next(c, es[0]), es[1..], d, capacity);
    }
  }

  lemma StartKeeps(maxInFlight: nat)
    ensures Inv(Start(maxInFlight), Capacity(maxInFlight))
  {
    var c := Start(maxInFlight);
    forall i: nat ensures Places(c, i) == 0 { assert Numbers(c.channel) == []; }
    assert Arrived(c) == map[];
  }

  /** In every run the bytes on the wire are the frames of requests 0, 1, 2, … in order, up to the request
      whose reply has not come, the first Close, or the frame the socket refused. */
  lemma OrderedReplies(maxInFlight: nat, es: seq<Event>, c: Connection)
    requires Runs(Start(maxInFlight), es, c)
    ensures Answered(c.replies, c.writer.next) && c.writer.written == FramesTo(c.replies, c.writer.next)
    ensures match c.writer.status
            case Open => c.writer.next !in Arrived(c)
            case Closed => c.writer.next in c.replies && c.replies[c.writer.next].Close?
            case Broken => c.writer.next in c.replies && c.replies[c.writer.next].Frame?
  {
    StartKeeps(maxInFlight);
    RunKeeps(Start(maxInFlight), es, c, Capacity(maxInFlight));
    if c.writer.status.Open? { FramesGrow(Arrived(c), c.replies, c.writer.next); }
  }

  lemma RunAccounts(maxInFlight: nat, es: seq<Event>, c: Connection)
    requires Runs(Start(maxInFlight), es, c) && c.writer.status.Open?
    ensures Outstanding(c) == c.sequence - c.writer.next
    ensures c.permits + One(c.reader.Holding?) + Outstanding(c) == Capacity(maxInFlight)
    ensures c.writer.next !in c.writer.pending && (c.writer.next < c.sequence ==> Places(c, c.writer.next) == 1)
  {
    StartKeeps(maxInFlight);
    RunKeeps(Start(maxInFlight), es, c, Capacity(maxInFlight));
  }

  /** Never more requests unanswered than the connection may have in flight, which is at least one, and no
      channel ever holds more than that: a task about to send finds room. */
  lemma InFlightIsBounded(maxInFlight: nat, es: seq<Event>, c: Connection)
    requires Runs(Start(maxInFlight), es, c) && c.writer.status.Open?
    ensures var most := if maxInFlight == 0 then 1 else maxInFlight;
            && c.sequence - c.writer.next + One(c.reader.Holding?) <= most
            && |c.channel| <= most && |c.produceQueue| <= most
            && (c.tasks != {} || c.producing.Some? || c.reader.Holding? ==>
                  |c.channel| < most && (c.reader.Holding? ==> |c.produceQueue| < most))
            && (c.permits > 0 <==> c.sequence - c.writer.next + One(c.reader.Holding?) < most)
  {
    RunAccounts(maxInFlight, es, c);
  }

  /** The connection after `n` requests were read and none answered. */
  ghost predicate Filled(maxInFlight: nat, n: nat, c: Connection) {
    && c.reader.Waiting? && c.writer == START && c.sequence == n && |c.tasks| == n
    && (forall t :: t in c.tasks ==> t < n) && c.permits == Capacity(maxInFlight) - n
  }

  /** And the bound is reached: so many requests can be read before the first is answered. */
  lemma {:induction false} BoundIsReached(maxInFlight: nat, n: nat) returns (es: seq<Event>, c: Connection)
    requires n <= if maxInFlight == 0 then 1 else maxInFlight
    ensures Runs(Start(maxInFlight), es, c) && Filled(maxInFlight, n, c) && c.sequence - c.writer.next == n
    decreases n
  {
    if n == 0 {
      es, c := [], Start(maxInFlight);
    } else {
      var before, b := BoundIsReached(maxInFlight, n - 1);
      var held := Next(b, TakePermit);
      c := Next(held, ReadFrame(Spawn));
      assert c.tasks == b.tasks + {n - 1};
      es := before + [TakePermit, ReadFrame(Spawn)];
      assert [TakePermit, ReadFrame(Spawn)][1..] == [ReadFrame(Spawn)] && [ReadFrame(Spawn)][1..] == [];
      assert Runs(held, [ReadFrame(Spawn)], c);
      assert Runs(b, [TakePermit, ReadFrame(Spawn)], c);
      RunsConcat(Start(maxInFlight), before, b, [TakePermit, ReadFrame(Spawn)], c);
    }
  }

  lemma {:induction false} RunsConcat(c: Connection, a: seq<Event>, d: Connection, b: seq<Event>, e: Connection)
    requires Runs(c, a, d) && Runs(d, b, e)
    ensures Runs(c, a + b, e)
    decreases |a|
  {
    if a == [] {
      assert a + b == b;
    } else {
      assert (a + b)[1..] == a[1..] + b;
      RunsConcat(Next(c, a[0]), a[1..], d, b, e);
    }
  }

  /** What ends reading: the end of the input, an answer that is the last, the end of the writer. */
  lemma ReadingEnds(c: Connection, e: Event)
    requires Enabled(c, e)
    ensures Next(c, e).reader.Stopped? <==>
            || c.reader.Stopped? || e.ReadEnds? || (e.ReadFrame? && e.work.AnswerAndStop?)
            || (e.WriterReceives? && !Next(c, e).writer.status.Open?)
  {
  }

  /** And then no request is read any more. */
  lemma {:induction false} StoppedReadsNoMore(c: Connection, es: seq<Event>, d: Connection)
    requires Runs(c, es, d) && c.reader.Stopped?
    ensures d.reader.Stopped? && d.sequence == c.sequence
    decreases |es|
  {
    if es != [] { StoppedReadsNoMore(Next(c, es[0]), es[1..], d); }
  }

  /** Once the reader has stopped and everything has been handled and received, with no Close, every
      request is answered and the buffer is empty. */
  lemma EverythingIsAnswered(maxInFlight: nat, es: seq<Event>, c: Connection)
    requires Runs(Start(maxInFlight), es, c) && c.writer.status.Open?
    requires c.tasks == {} && c.produceQueue == [] && c.producing.None? && c.channel == []
    ensures c.writer.next == c.sequence && c.writer.pending == map[]
    ensures Answered(c.replies, c.sequence) && c.writer.written == FramesTo(c.replies, c.sequence)
  {
    StartKeeps(maxInFlight);
    RunKeeps(Start(maxInFlight), es, c, Capacity(maxInFlight));
    OrderedReplies(maxInFlight, es, c);
    assert Places(c, c.writer.next) == 0;
    forall i: nat ensures i !in c.writer.pending { assert Places(c, i) == 0; }
  }

  function Mover(c: Connection): Event {
    if c.channel != [] then WriterReceives(0)
    else if c.producing.Some? then ProduceDefers
    else if c.produceQueue != [] then ProduceBegins
    else Finish(c.writer.next, Skip)
  }

  /** The request the writer waits for is being prepared, queued or on its way. */
  lemma MoverIsEnabled(c: Connection)
    requires Places(c, c.writer.next) == 1 && c.writer.next !in c.writer.pending && c.writer.status.Open?
    ensures Enabled(c, Mover(c))
  {
  }

  /** Where a request is unanswered, something other than the reader can move. So the reader never waits for a
      permit that cannot come. */
  lemma SomebodyCanMove(maxInFlight: nat, es: seq<Event>, c: Connection)
    requires Runs(Start(maxInFlight), es, c) && c.writer.status.Open?
    requires c.writer.next < c.sequence || (c.permits == 0 && !c.reader.Holding?)
    ensures Enabled(c, Mover(c))
    ensures !Mover(c).TakePermit? && !Mover(c).ReadFrame? && !Mover(c).ReadEnds?
  {
    RunAccounts(maxInFlight, es, c);
    MoverIsEnabled(c);
  }

  /** How many steps those who answer can still take. */
  function StepsLeft(c: Connection): nat {
    4 * |c.produceQueue| + 3 * One(c.producing.Some?) + 2 * |c.tasks| + |c.channel|
  }

  /** And they do not move for ever: without the reader every step is one of finitely many. */
  lemma AnsweringEnds(c: Connection, e: Event)
    requires Enabled(c, e) && !e.TakePermit? && !e.ReadFrame? && !e.ReadEnds?
    ensures StepsLeft(Next(c, e)) < StepsLeft(c)
  {
  }

  /** Produce requests are dispatched in the order they were read, none left out. */
  lemma ProduceInOrder(maxInFlight: nat, es: seq<Event>, c: Connection)
    requires Runs(Start(maxInFlight), es, c)
    ensures c.dispatched <= c.produced && c.produced[|c.dispatched|..] == c.produceQueue
  {
    StartKeeps(maxInFlight);
    RunKeeps(Start(maxInFlight), es, c, Capacity(maxInFlight));
  }
}
