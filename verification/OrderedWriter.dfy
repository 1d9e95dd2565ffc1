/** Replies leave a connection in request order, whatever order they are ready in. */
module OrderedWriter {
  import opened Prelude

  /** What became of a request: a frame to write, nothing to write, or the end of the connection. */
  datatype Reply = Frame(bytes: Str) | Skip | Close

  /** Broken: the socket refused a frame. */
  datatype Status = Open | Closed | Broken

  datatype Writer = Writer(next: nat, pending: map<nat, Reply>, written: seq<Str>, status: Status)

  const START := Writer(0, map[], [], Open)

  /** Writes out what is next in line, for as long as it is there and the socket takes frames. */
  function Drain(w: Writer, accepts: nat): Writer
    decreases |w.pending|
  {
    if w.next !in w.pending then w
    else
      var rest := w.pending - {w.next};
      match w.pending[w.next]
      case Close => w.(pending := rest, status := Closed)
      case Skip => Drain(w.(next := w.next + 1, pending := rest), accepts)
      case Frame(bytes) =>
        if accepts == 0 then w.(pending := rest, status := Broken)
        else Drain(w.(next := w.next + 1, pending := rest, written := w.written + [bytes]), accepts - 1)
  }

  /** A reply arrives; once the writer is done it goes nowhere. */
  function Deliver(w: Writer, sequence: nat, reply: Reply, accepts: nat): Writer {
    if !w.status.Open? then w else Drain(w.(pending := w.pending[sequence := reply]), accepts)
  }

  /** The writer task: its buffer, its place in line and what it has written. */
  class ReplyWriter {
    var next: nat
    var pending: map<nat, Reply>
    var written: seq<Str>
    var status: Status

    ghost function Value(): Writer
      reads this
    {
      Writer(next, pending, written, status)
    }

    constructor ()
      ensures Value() == START
    {
      next, pending, written, status := 0, map[], [], Open;
    }

    /** Handles one arrival; the socket takes `accepts` frames before it refuses one. */
    method Receive(sequence: nat, reply: Reply, accepts: nat)
      modifies this
      ensures Value() == Deliver(old(Value()), sequence, reply, accepts)
    {
      if !status.Open? {
        return;
      }
      pending := pending[sequence := reply];
      var left := accepts;
      while status.Open? && next in pending
        invariant 0 <= left
        invariant Deliver(old(Value()), sequence, reply, accepts) ==
                  if status.Open? then Drain(Value(), left) else Value()
        decreases status.Open?, |pending|
      {
        var slot := pending[next];
        pending := pending - {next};
        match slot {
          case Frame(bytes) =>
            if left == 0 {
              status := Broken;
            } else {
              left := left - 1;
              written := written + [bytes];
              next := next + 1;
            }
          case Skip => next := next + 1;
          case Close => status := Closed;
        }
      }
    }
  }

  // ------------------------------------------------ what has to come out

  /** The frames of the first `n` requests, in request order. */
  ghost function FramesTo(replies: map<nat, Reply>, n: nat): seq<Str>
    requires forall i :: 0 <= i < n ==> i in replies
  {
    if n == 0 then []
    else FramesTo(replies, n - 1) + if replies[n - 1].Frame? then [replies[n - 1].bytes] else []
  }

  /** Every request below `n` was answered, and none of the answers ends the connection. */
  ghost predicate Answered(replies: map<nat, Reply>, n: nat) {
    forall i :: 0 <= i < n ==> i in replies && !replies[i].Close?
  }

  /** Where the output of these replies has to stop: at the first missing one or the first Close. */
  ghost predicate Stop(replies: map<nat, Reply>, n: nat) {
    Answered(replies, n) && (n in replies ==> replies[n].Close?)
  }

  lemma StopIsUnique(replies: map<nat, Reply>, a: nat, b: nat)
    requires Stop(replies, a) && Stop(replies, b)
    ensures a == b
  {
  }

  lemma {:induction false} FramesGrow(a: map<nat, Reply>, b: map<nat, Reply>, n: nat)
    requires forall i :: 0 <= i < n ==> i in a && i in b && a[i] == b[i]
    ensures FramesTo(a, n) == FramesTo(b, n)
  {
    if n > 0 { FramesGrow(a, b, n - 1); }
  }

  /** `arrived` are all the replies received so far, in whatever order. */
  ghost predicate Tracks(w: Writer, arrived: map<nat, Reply>) {
    && Answered(arrived, w.next) && w.written == FramesTo(arrived, w.next)
    && match w.status
       case Open => w.next !in arrived && forall i :: i in w.pending <==> i in arrived && w.next <= i
       case Closed => w.next in arrived && arrived[w.next].Close?
       case Broken => w.next in arrived && arrived[w.next].Frame?
  }

  ghost predicate Draining(w: Writer, arrived: map<nat, Reply>) {
    && Answered(arrived, w.next) && w.written == FramesTo(arrived, w.next) && w.status.Open?
    && (forall i :: i in w.pending <==> i in arrived && w.next <= i)
    && (forall i :: i in w.pending ==> w.pending[i] == arrived[i])
  }

  lemma {:induction false} DrainTracks(w: Writer, arrived: map<nat, Reply>, accepts: nat)
    requires Draining(w, arrived)
    ensures Tracks(Drain(w, accepts), arrived)
    ensures var d := Drain(w, accepts); d.status.Open? ==> forall i :: i in d.pending ==> d.pending[i] == arrived[i]
    decreases |w.pending|
  {
    if w.next in w.pending {
      var rest := w.pending - {w.next};
      match w.pending[w.next]
      case Close =>
      case Skip => DrainTracks(w.(next := w.next + 1, pending := rest), arrived, accepts);
      case Frame(bytes) =>
        if accepts > 0 {
          DrainTracks(w.(next := w.next + 1, pending := rest, written := w.written + [bytes]), arrived, accepts - 1);
        }
    }
  }

  datatype Arrival = Arrival(sequence: nat, reply: Reply, accepts: nat)

  function Receiving(arrivals: seq<Arrival>): Writer {
    if arrivals == [] then START
    else
      var a := arrivals[|arrivals| - 1];
      Deliver(Receiving(arrivals[..|arrivals| - 1]), a.sequence, a.reply, a.accepts)
  }

  ghost function RepliesOf(arrivals: seq<Arrival>): map<nat, Reply> {
    if arrivals == [] then map[]
    else
      var a := arrivals[|arrivals| - 1];
      RepliesOf(arrivals[..|arrivals| - 1])[a.sequence := a.reply]
  }

  ghost predicate OnePerRequest(arrivals: seq<Arrival>) {
    forall i, j :: 0 <= i < j < |arrivals| ==> arrivals[i].sequence != arrivals[j].sequence
  }

  lemma {:induction false} RepliesKeys(arrivals: seq<Arrival>, n: nat)
    ensures n in RepliesOf(arrivals) <==> exists i :: 0 <= i < |arrivals| && arrivals[i].sequence == n
    decreases |arrivals|
  {
    if arrivals != [] {
      var m := |arrivals| - 1;
      RepliesKeys(arrivals[..m], n);
      if n in RepliesOf(arrivals[..m]) {
        var i :| 0 <= i < m && arrivals[..m][i].sequence == n;
        assert arrivals[i].sequence == n;
      } else if arrivals[m].sequence != n {
        forall i | 0 <= i < |arrivals| ensures arrivals[i].sequence != n {
          if i < m { assert arrivals[..m][i] == arrivals[i]; }
        }
      }
    }
  }

  /** Whatever the order of arrival, what is written is the frames of requests 0, 1, 2, … up to the first
      request not answered yet, the first Close, or the frame the socket refused. */
  lemma {:induction false} WritesInOrder(arrivals: seq<Arrival>)
    requires OnePerRequest(arrivals)
    ensures var w := Receiving(arrivals);
            Tracks(w, RepliesOf(arrivals)) &&
            (w.status.Open? ==> forall i :: i in w.pending ==> w.pending[i] == RepliesOf(arrivals)[i])
    decreases |arrivals|
  {
    if arrivals != [] {
      var init, a := arrivals[..|arrivals| - 1], arrivals[|arrivals| - 1];
      WritesInOrder(init);
      RepliesKeys(init, a.sequence);
      var w, seen := Receiving(init), RepliesOf(init);
      var all := seen[a.sequence := a.reply];
      assert a.sequence !in seen;
      FramesGrow(seen, all, w.next);
      if w.status.Open? {
        DrainTracks(w.(pending := w.pending[a.sequence := a.reply]), all, a.accepts);
      }
    }
  }

  /** Confluence: two orders of the same replies, over sockets that refuse nothing, leave the same writer. */
  lemma OrderDoesNotMatter(a: seq<Arrival>, b: seq<Arrival>)
    requires OnePerRequest(a) && OnePerRequest(b) && RepliesOf(a) == RepliesOf(b)
    requires !Receiving(a).status.Broken? && !Receiving(b).status.Broken?
    ensures Receiving(a).next == Receiving(b).next && Receiving(a).written == Receiving(b).written
    ensures Receiving(a).status == Receiving(b).status
    ensures Receiving(a).status.Open? ==> Receiving(a).pending == Receiving(b).pending
  {
    WritesInOrder(a);
    WritesInOrder(b);
    StopIsUnique(RepliesOf(a), Receiving(a).next, Receiving(b).next);
  }

  /** Once everything is answered, and nothing ended the connection, nothing is left in the buffer. */
  lemma NothingLeftOver(arrivals: seq<Arrival>, n: nat)
    requires OnePerRequest(arrivals) && !Receiving(arrivals).status.Broken?
    requires forall i :: i in RepliesOf(arrivals) <==> 0 <= i < n
    requires forall i :: 0 <= i < n ==> !RepliesOf(arrivals)[i].Close?
    ensures var w := Receiving(arrivals);
            w.status.Open? && w.next == n && w.pending == map[] && w.written == FramesTo(RepliesOf(arrivals), n)
  {
    WritesInOrder(arrivals);
    StopIsUnique(RepliesOf(arrivals), Receiving(arrivals).next, n);
  }
}
