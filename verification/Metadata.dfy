/** The metadata state machine over its primary tables only: no index, no running counter.
    `Step` is the specification that the indexed store refines. */
module Metadata {
  import opened Prelude
  import opened MetadataTypes

  /** A destroyed object waiting for the cleaner, at its place in the queue. */
  datatype Mark = Mark(seqNo: nat, op: CompactOperation)

  datatype Garbage = Garbage(marks: map<nat, Mark>, nextSeq: nat)

  /** Object ids on lease, the two kinds of committed objects, and the cleaner's queue. */
  datatype Objects = Objects(
    nextObjectId: nat,
    prepared: map<nat, int>,
    setObjects: map<nat, SetObject>,
    streamObjects: map<nat, StreamObject>,
    garbage: Garbage)

  datatype State = State(
    nextStreamId: nat,
    streams: map<nat, Stream>,
    nodes: map<int, Node>,
    transfers: map<nat, Transfer>,
    epochs: map<(nat, int), nat>,
    nextProducerId: nat,
    objects: Objects,
    kv: map<Str, Str>)

  const Empty: State :=
    State(0, map[], map[], map[], map[], 0, Objects(0, map[], map[], map[], Garbage(map[], 0)), map[])

  datatype Applied = Applied(state: State, result: MetadataResult)

  type StepResult = Outcome<Applied>

  // ---------------------------------------------------------------- nodes

  predicate LiveNode(s: State, n: int) {
    n in s.nodes && !s.nodes[n].fenced
  }

  predicate Live(s: State, p: Proposer) {
    p.nodeId in s.nodes && s.nodes[p.nodeId].epoch == p.nodeEpoch && !s.nodes[p.nodeId].fenced
  }

  predicate Eligible(s: State, n: int) {
    LiveNode(s, n) && s.nodes[n].slots >= 1
  }

  function RegisterNodeStep(s: State, n: int, epoch: int, http: Str, slots: nat,
                            addresses: map<Str, Str>, wal: Str): Applied
  {
    if n in s.nodes then
      var prior := s.nodes[n];
      var e := Max(epoch, prior.epoch + 1);
      var node := Node(e, if http == [] then prior.httpAddress else http, slots,
                       if addresses == map[] then prior.protocolAddresses else addresses,
                       if wal == [] then prior.wal else wal, prior.heartbeats, false);
      Applied(s.(nodes := s.nodes[n := node]), Id(AsU64(e)))
    else
      Applied(s.(nodes := s.nodes[n := Node(epoch, http, slots, addresses, wal, 0, false)]), Id(AsU64(epoch)))
  }

  function SetNodeSlotsStep(s: State, n: int, slots: nat): StepResult {
    if n !in s.nodes then Err(NodeEpochMismatch(n))
    else Ok(Applied(s.(nodes := s.nodes[n := s.nodes[n].(slots := slots)]), Unit))
  }

  function HeartbeatStep(s: State, n: int): StepResult {
    if n !in s.nodes then Ok(Applied(s, Unit))
    else Ok(Applied(s.(nodes := s.nodes[n := s.nodes[n].(heartbeats := s.nodes[n].heartbeats + 1)]), Unit))
  }

  function FenceNodeStep(s: State, p: Proposer, n: int, epoch: int, heartbeats: nat): StepResult {
    if n !in s.nodes then Err(NodeEpochMismatch(n))
    else
      var node := s.nodes[n];
      if node.fenced || node.epoch != epoch || (p != Proposer(n, epoch) && node.heartbeats != heartbeats)
      then Err(Redundant)
      else Ok(Applied(s.(nodes := s.nodes[n := node.(fenced := true)]), Unit))
  }

  // -------------------------------------------------------------- streams

  const NewStream: Stream := Stream(-1, 0, 0, Closed, -1)

  /** `n` may change the stream's lifecycle: it owns it, or no live node does. */
  predicate MayManage(s: State, st: Stream, n: int) {
    st.nodeId == n || !LiveNode(s, st.nodeId)
  }

  function WithStream(s: State, id: nat, st: Stream): State {
    s.(streams := s.streams[id := st])
  }

  /** The ids `first`, `first + 1`, ... given `value`, `count` of them. */
  function Block<T>(first: nat, count: nat, value: T): (m: map<nat, T>)
    ensures forall id :: id in m <==> first <= id < first + count
    ensures forall id :: id in m ==> m[id] == value
  {
    if count == 0 then map[] else Block(first, count - 1, value)[first + count - 1 := value]
  }

  function CreateStreamsStep(s: State, count: nat): StepResult {
    if count == 0 || count > MAX_CREATE_STREAMS then Err(Unexpected)
    else
      var added := Block(s.nextStreamId, count, NewStream);
      Ok(Applied(s.(streams := s.streams + added, nextStreamId := s.nextStreamId + count), Id(s.nextStreamId)))
  }

  function CreateStreamStep(s: State): StepResult {
    Ok(Applied(s.(streams := s.streams[s.nextStreamId := NewStream], nextStreamId := s.nextStreamId + 1), Id(s.nextStreamId)))
  }

  /** The stream counts towards the load of node `n`. */
  predicate LoadsNode(st: Stream, n: int) {
    st.nodeId == n && (st.state.Opened? || n != -1)
  }

  function StreamsOn(streams: map<nat, Stream>, n: int): set<nat> {
    set id | id in streams && LoadsNode(streams[id], n)
  }

  function Score(s: State, n: int): nat
    requires Eligible(s, n)
  {
    |StreamsOn(s.streams, n)| * 1000 / s.nodes[n].slots
  }

  ghost predicate IsLeastLoaded(s: State, n: int) {
    && Eligible(s, n)
    && forall m :: Eligible(s, m) ==> Score(s, n) < Score(s, m) || (Score(s, n) == Score(s, m) && n <= m)
  }

  ghost function LeastLoaded(s: State): Option<int> {
    if n :| IsLeastLoaded(s, n) then Some(n) else None
  }

  /** The node asked for, if it can take streams; without a wish, the least loaded one. */
  ghost function ChosenNode(s: State, requested: Option<int>): Option<int> {
    match requested
    case Some(n) => if Eligible(s, n) then Some(n) else None
    case None => LeastLoaded(s)
  }

  ghost function PlaceStreamStep(s: State, id: nat, requested: Option<int>): StepResult {
    if id !in s.streams then Err(StreamNotExist(id))
    else
      var st := s.streams[id];
      if st.state.Opened? || LiveNode(s, st.nodeId) then Ok(Applied(s, Id(AsU64(st.nodeId))))
      else
        match ChosenNode(s, requested)
        case None => Err(NoLiveNode)
        case Some(n) => Ok(Applied(WithStream(s, id, st.(nodeId := n)), Id(AsU64(n))))
  }

  function OpenStreamStep(s: State, n: int, id: nat, epoch: int): StepResult {
    if id !in s.streams then Err(StreamNotExist(id))
    else
      var st := s.streams[id];
      if st.epoch > epoch then Err(StreamFenced(id, epoch))
      else if st.epoch == epoch then
        if st.state.Opened? && st.nodeId == n then Ok(Applied(s, Opening(Describe(id, st))))
        else Err(StreamFenced(id, epoch))
      else if st.state.Opened? then Err(StreamNotClosed(id))
      else
        var reopened := st.(epoch := epoch, state := Opened, nodeId := n);
        Ok(Applied(s.(streams := s.streams[id := reopened], epochs := s.epochs[(id, epoch) := st.endOffset]),
                   Opening(Describe(id, reopened))))
  }

  /** Every recorded epoch of the stream up to `e` starts at or below `offset`. */
  ghost predicate StartedBy(epochs: map<(nat, int), nat>, id: nat, e: int, offset: nat) {
    (id, e) in epochs && forall d :: d <= e && (id, d) in epochs ==> epochs[(id, d)] <= offset
  }

  /** A later epoch already governs everything from `offset` on. */
  ghost predicate Superseded(epochs: map<(nat, int), nat>, id: nat, e: int, offset: nat) {
    exists f :: e < f && StartedBy(epochs, id, f, offset)
  }

  ghost function PruneEpochs(epochs: map<(nat, int), nat>, id: nat, offset: nat): map<(nat, int), nat> {
    map k | k in epochs && !(k.0 == id && Superseded(epochs, id, k.1, offset)) :: epochs[k]
  }

  function MarkOne(g: Garbage, id: nat, op: CompactOperation): Garbage {
    if id in g.marks then g.(marks := g.marks[id := Mark(g.marks[id].seqNo, op)])
    else Garbage(g.marks[id := Mark(g.nextSeq, op)], g.nextSeq + 1)
  }

  function MarkAll(g: Garbage, ids: seq<nat>, ops: seq<CompactOperation>): Garbage
    requires |ids| == |ops|
  {
    if ids == [] then g
    else MarkOne(MarkAll(g, ids[..|ids| - 1], ops[..|ids| - 1]), ids[|ids| - 1], ops[|ids| - 1])
  }

  function Deletes(n: nat): seq<CompactOperation> {
    seq(n, _ => Delete)
  }

  function KeyOf(o: StreamObject, id: nat): OffsetKey {
    OffsetKey(o.streamId, o.startOffset, id)
  }

  /** The given stream objects in scan order. */
  function InScanOrder(objects: map<nat, StreamObject>, ids: set<nat>): seq<nat> {
    ObjectsOf(SortKeys(set id | id in ids && id in objects :: KeyOf(objects[id], id)))
  }

  /** Drops the given stream objects and queues them for deletion in scan order. */
  function DestroyStreamObjects(o: Objects, ids: set<nat>): Objects {
    var order := InScanOrder(o.streamObjects, ids);
    o.(streamObjects := o.streamObjects - ids, garbage := MarkAll(o.garbage, order, Deletes(|order|)))
  }

  function ObjectsBelow(objects: map<nat, StreamObject>, streamId: nat, offset: nat): set<nat> {
    set id | id in objects && objects[id].streamId == streamId && objects[id].endOffset <= offset
  }

  /** Why a trim is refused, in the order the checks are made. */
  function TrimRefusal(s: State, n: int, id: nat, epoch: int, newStart: nat): Option<MetadataError> {
    if id !in s.streams then Some(StreamNotExist(id))
    else if s.streams[id].epoch != epoch then Some(ExpiredEpoch(id, epoch))
    else if !MayManage(s, s.streams[id], n) then Some(StreamFenced(id, s.streams[id].epoch))
    else if newStart < s.streams[id].startOffset || newStart > s.streams[id].endOffset then Some(Unexpected)
    else None
  }

  ghost function TrimStreamStep(s: State, n: int, id: nat, epoch: int, newStart: nat): StepResult {
    match TrimRefusal(s, n, id, epoch, newStart)
    case Some(e) => Err(e)
    case None =>
      Ok(Applied(s.(streams := s.streams[id := s.streams[id].(startOffset := newStart)],
                    epochs := PruneEpochs(s.epochs, id, newStart),
                    objects := DestroyStreamObjects(s.objects, ObjectsBelow(s.objects.streamObjects, id, newStart))), Unit))
  }

  function CloseStreamStep(s: State, n: int, id: nat, epoch: int): StepResult {
    if id !in s.streams then Err(StreamNotExist(id))
    else
      var st := s.streams[id];
      if st.state.Closed? && st.epoch == epoch then Ok(Applied(s, Unit))
      else if !MayManage(s, st, n) then Err(StreamFenced(id, st.epoch))
      else if st.state.Closed? then Err(Unexpected)
      else if st.epoch != epoch then Err(ExpiredEpoch(id, epoch))
      else Ok(Applied(WithStream(s, id, st.(state := Closed)), Unit))
  }

  function TransferStreamStep(s: State, id: nat, fromNode: int, toNode: int): StepResult {
    if id !in s.streams then Err(StreamNotExist(id))
    else if id in s.transfers then
      if s.transfers[id] == Transfer(fromNode, toNode) then Ok(Applied(s, Unit)) else Err(Unexpected)
    else if fromNode == toNode then Err(Unexpected)
    else if !Eligible(s, toNode) then Err(NodeEpochMismatch(toNode))
    else if s.streams[id].state.Closed? || s.streams[id].nodeId != fromNode then Err(Unexpected)
    else Ok(Applied(s.(transfers := s.transfers[id := Transfer(fromNode, toNode)]), Unit))
  }

  function CompleteTransferStep(s: State, id: nat, epoch: int): StepResult {
    if id !in s.transfers then Err(Redundant)
    else if id !in s.streams then Err(StreamNotExist(id))
    else
      var st := s.streams[id];
      if st.state.Opened? then Err(StreamNotClosed(id))
      else if st.epoch != epoch then Err(ExpiredEpoch(id, epoch))
      else Ok(Applied(s.(streams := s.streams[id := st.(nodeId := s.transfers[id].toNode)], transfers := s.transfers - {id}), Unit))
  }

  function ObjectsOfStream(objects: map<nat, StreamObject>, streamId: nat): set<nat> {
    set id | id in objects && objects[id].streamId == streamId
  }

  function DropEpochs(epochs: map<(nat, int), nat>, id: nat): map<(nat, int), nat> {
    map k | k in epochs && k.0 != id :: epochs[k]
  }

  /** Why deleting an existing stream is refused. */
  function DeleteRefusal(s: State, n: int, id: nat, epoch: int): Option<MetadataError>
    requires id in s.streams
  {
    var st := s.streams[id];
    if !MayManage(s, st, n) then Some(StreamFenced(id, st.epoch))
    else if st.state.Opened? then Some(StreamNotClosed(id))
    else if st.epoch != epoch then Some(ExpiredEpoch(id, epoch))
    else None
  }

  function DeleteStreamStep(s: State, n: int, id: nat, epoch: int): StepResult {
    if id !in s.streams then Ok(Applied(s, Unit))
    else match DeleteRefusal(s, n, id, epoch)
      case Some(e) => Err(e)
      case None =>
        Ok(Applied(s.(streams := s.streams - {id}, transfers := s.transfers - {id},
                      epochs := DropEpochs(s.epochs, id),
                      objects := DestroyStreamObjects(s.objects, ObjectsOfStream(s.objects.streamObjects, id))), Unit))
  }

  function AllocateProducerIdsStep(s: State, count: nat): StepResult {
    if count == 0 || count > MAX_ALLOCATE_PRODUCER_IDS then Err(Unexpected)
    else Ok(Applied(s.(nextProducerId := s.nextProducerId + count), Id(s.nextProducerId)))
  }

  // -------------------------------------------------------------- objects

  function PrepareObjectStep(s: State, count: nat, ttlMs: int, nowMs: int): StepResult {
    if count == 0 then Err(Unexpected)
    else
      var first := s.objects.nextObjectId;
      var leases := Block(first, count, nowMs + Max(ttlMs, 0));
      Ok(Applied(s.(objects := s.objects.(prepared := s.objects.prepared + leases, nextObjectId := first + count)), Id(first)))
  }

  function Advance(streams: map<nat, Stream>, id: nat, start: nat, end: nat, compact: bool): Outcome<map<nat, Stream>> {
    if id !in streams then Err(StreamNotExist(id))
    else
      var st := streams[id];
      if compact then
        if st.endOffset < end || st.startOffset > start then Err(Unexpected) else Ok(streams)
      else if st.endOffset != start then Err(Unexpected)
      else Ok(streams[id := st.(endOffset := end)])
  }

  function AdvanceAll(streams: map<nat, Stream>, slices: seq<Slice>, compact: bool): Outcome<map<nat, Stream>> {
    if slices == [] then Ok(streams)
    else
      var last := slices[|slices| - 1];
      var before :- AdvanceAll(streams, slices[..|slices| - 1], compact);
      Advance(before, last.streamId, last.startOffset, last.endOffset, compact)
  }

  predicate StreamObjectCommitted(o: Objects, streamId: nat, id: nat) {
    id in o.streamObjects && o.streamObjects[id].streamId == streamId
  }

  /** `id` may be committed under `key`: it is no other committed object. */
  predicate ObjectIdFree(o: Objects, id: nat, key: Option<OffsetKey>) {
    && id !in o.setObjects
    && (id in o.streamObjects ==> key == Some(KeyOf(o.streamObjects[id], id)))
  }

  predicate RedundantCommit(o: Objects, r: CommitRequest) {
    if r.objectId != NOOP_OBJECT_ID then r.objectId in o.setObjects
    else r.streamObjects != [] &&
         forall i :: 0 <= i < |r.streamObjects| ==>
           StreamObjectCommitted(o, r.streamObjects[i].streamId, r.streamObjects[i].objectId)
  }

  /** The oldest data time among the sources and `nowMs`. */
  function OldestData(sets: map<nat, SetObject>, ids: seq<nat>, nowMs: int): int
    requires forall i :: 0 <= i < |ids| ==> ids[i] in sets
  {
    if ids == [] then nowMs
    else Min(OldestData(sets, ids[..|ids| - 1], nowMs), sets[ids[|ids| - 1]].dataMs)
  }

  /** The latest write among the sources; `nowMs` when there is none. */
  function LatestWrite(sets: map<nat, SetObject>, ids: seq<nat>, nowMs: int): int
    requires forall i :: 0 <= i < |ids| ==> ids[i] in sets
  {
    if ids == [] then nowMs
    else if |ids| == 1 then sets[ids[0]].lastWriteMs
    else Max(LatestWrite(sets, ids[..|ids| - 1], nowMs), sets[ids[|ids| - 1]].lastWriteMs)
  }

  function IdSet(ids: seq<nat>): set<nat> {
    set i | 0 <= i < |ids| :: ids[i]
  }

  function DestroySetObjects(o: Objects, ids: seq<nat>): Objects {
    o.(setObjects := o.setObjects - IdSet(ids), garbage := MarkAll(o.garbage, ids, Deletes(|ids|)))
  }

  /** The times a commit stamps on what it writes. */
  datatype Stamp = Stamp(nowMs: int, dataMs: int, lastWriteMs: int)

  function PutSetObject(o: Objects, n: int, r: CommitRequest, t: Stamp): Objects {
    var row := SetObject(n, r.slices, r.objectSize, r.attributes, t.nowMs, t.dataMs, t.lastWriteMs);
    o.(prepared := o.prepared - {r.objectId}, setObjects := o.setObjects[r.objectId := row])
  }

  function CommitSetObject(s: State, n: int, r: CommitRequest, t: Stamp): Outcome<State> {
    if r.objectId == NOOP_OBJECT_ID then Ok(s)
    else if !ObjectIdFree(s.objects, r.objectId, None) then Err(Unexpected)
    else
      var streams :- AdvanceAll(s.streams, r.slices, r.compacted != []);
      Ok(s.(streams := streams, objects := PutSetObject(s.objects, n, r, t)))
  }

  function PutStreamObject(o: Objects, x: NewStreamObject, t: Stamp): Objects {
    var row := StreamObject(x.streamId, x.startOffset, x.endOffset, x.objectSize, x.attributes,
                            t.nowMs, t.dataMs, t.lastWriteMs);
    o.(prepared := o.prepared - {x.objectId}, streamObjects := o.streamObjects[x.objectId := row])
  }

  function CommitStreamObject(s: State, x: NewStreamObject, compact: bool, t: Stamp): Outcome<State> {
    if !ObjectIdFree(s.objects, x.objectId, Some(OffsetKey(x.streamId, x.startOffset, x.objectId))) then Err(Unexpected)
    else
      var streams :- Advance(s.streams, x.streamId, x.startOffset, x.endOffset, compact);
      Ok(s.(streams := streams, objects := PutStreamObject(s.objects, x, t)))
  }

  function CommitStreamObjects(s: State, xs: seq<NewStreamObject>, compact: bool, t: Stamp): Outcome<State> {
    if xs == [] then Ok(s)
    else
      var before :- CommitStreamObjects(s, xs[..|xs| - 1], compact, t);
      CommitStreamObject(before, xs[|xs| - 1], compact, t)
  }

  predicate SourcesExist(o: Objects, r: CommitRequest) {
    forall i :: 0 <= i < |r.compacted| ==> r.compacted[i] in o.setObjects
  }

  function CommitStamp(o: Objects, r: CommitRequest, nowMs: int): Stamp
    requires SourcesExist(o, r)
  {
    Stamp(nowMs, OldestData(o.setObjects, r.compacted, nowMs), LatestWrite(o.setObjects, r.compacted, nowMs))
  }

  function CommitStep(s: State, n: int, r: CommitRequest, nowMs: int): StepResult {
    if RedundantCommit(s.objects, r) then Err(Redundant)
    else if !SourcesExist(s.objects, r) then Err(Unexpected)
    else
      var t := CommitStamp(s.objects, r, nowMs);
      var withSet :- CommitSetObject(s.(objects := DestroySetObjects(s.objects, r.compacted)), n, r, t);
      var done :- CommitStreamObjects(withSet, r.streamObjects, r.compacted != [], t);
      Ok(Applied(done, Unit))
  }

  /** The latest write among those sources that are committed stream objects; `nowMs` when none is. */
  function SourceWrite(objects: map<nat, StreamObject>, ids: seq<nat>): Option<int> {
    if ids == [] then None
    else
      var before := SourceWrite(objects, ids[..|ids| - 1]);
      var id := ids[|ids| - 1];
      if id !in objects then before
      else match before
        case None => Some(objects[id].lastWriteMs)
        case Some(w) => Some(Max(w, objects[id].lastWriteMs))
  }

  function SourcesIn(objects: map<nat, StreamObject>, streamId: nat, ids: seq<nat>): set<nat> {
    set id | id in IdSet(ids) && id in objects && objects[id].streamId == streamId
  }

  /** Why a compaction is refused before anything is written, in the order the checks are made. */
  function CompactCheck(s: State, r: CompactRequest): Option<MetadataError> {
    if r.objectId != NOOP_OBJECT_ID && StreamObjectCommitted(s.objects, r.streamId, r.objectId) then Some(Redundant)
    else if r.streamId !in s.streams then Some(StreamNotExist(r.streamId))
    else
      var st := s.streams[r.streamId];
      if st.epoch != AsI64(r.streamEpoch) then Some(ExpiredEpoch(r.streamId, AsI64(r.streamEpoch)))
      else if st.endOffset < r.endOffset || st.startOffset > r.startOffset then Some(Unexpected)
      else if r.objectId != NOOP_OBJECT_ID &&
              !ObjectIdFree(s.objects, r.objectId, Some(OffsetKey(r.streamId, r.startOffset, r.objectId))) then Some(Unexpected)
      else None
  }

  /** One operation for every source, or none at all. */
  predicate OperationsMatch(sources: seq<nat>, operations: seq<CompactOperation>) {
    sources == [] || operations == [] || |operations| == |sources|
  }

  function CompactRefusal(s: State, r: CompactRequest): Option<MetadataError> {
    match CompactCheck(s, r)
    case Some(e) => Some(e)
    case None => if OperationsMatch(r.sources, r.operations) then None else Some(Unexpected)
  }

  /** The replacement goes in, then the sources that are objects of this stream come out. */
  function CompactedObjects(objects: map<nat, StreamObject>, r: CompactRequest, nowMs: int): map<nat, StreamObject> {
    var written := match SourceWrite(objects, r.sources)
      case Some(w) => w
      case None => nowMs;
    var row := StreamObject(r.streamId, r.startOffset, r.endOffset, r.objectSize, r.attributes, nowMs, nowMs, written);
    var inserted := if r.objectId == NOOP_OBJECT_ID then objects else objects[r.objectId := row];
    inserted - SourcesIn(inserted, r.streamId, r.sources)
  }

  /** The operation for each source: the given ones, or `Delete` throughout. */
  function SourceOperations(sources: seq<nat>, operations: seq<CompactOperation>): (ops: seq<CompactOperation>)
    requires OperationsMatch(sources, operations)
    ensures |ops| == |sources|
  {
    if sources == [] || operations == [] then Deletes(|sources|) else operations
  }

  function CompactStep(s: State, r: CompactRequest, nowMs: int): StepResult {
    match CompactRefusal(s, r)
    case Some(e) => Err(e)
    case None =>
      var o := s.objects;
      Ok(Applied(s.(objects := o.(prepared := o.prepared - {r.objectId},
                                  streamObjects := CompactedObjects(o.streamObjects, r, nowMs),
                                  garbage := MarkAll(o.garbage, r.sources, SourceOperations(r.sources, r.operations)))), Unit))
  }

  function ExpireStep(s: State, nowMs: int): StepResult {
    var expired := set id | id in s.objects.prepared && s.objects.prepared[id] <= nowMs;
    Ok(Applied(s.(objects := s.objects.(prepared := s.objects.prepared - expired)), Count(|expired|)))
  }

  function CleanStep(s: State, ids: seq<nat>): StepResult {
    var g := s.objects.garbage;
    Ok(Applied(s.(objects := s.objects.(garbage := g.(marks := g.marks - IdSet(ids)))), Unit))
  }

  // ------------------------------------------------------------------- kv

  function PutKvStep(s: State, key: Str, value: Str): StepResult {
    Ok(Applied(s.(kv := s.kv[key := value]), Value(Some(value))))
  }

  function PutKvIfAbsentStep(s: State, key: Str, value: Str): StepResult {
    if key in s.kv then Ok(Applied(s, Value(Some(s.kv[key])))) else PutKvStep(s, key, value)
  }

  function DeleteKvStep(s: State, key: Str): StepResult {
    if key in s.kv then Ok(Applied(s.(kv := s.kv - {key}), Value(Some(s.kv[key]))))
    else Ok(Applied(s, Value(None)))
  }

  function DeleteKvIfMatchesStep(s: State, key: Str, expected: Str): StepResult {
    if key in s.kv && s.kv[key] == expected then DeleteKvStep(s, key) else Err(Redundant)
  }

  function PutKvIfMatchesStep(s: State, key: Str, expected: Str, value: Str): StepResult {
    if key in s.kv && s.kv[key] == expected then PutKvStep(s, key, value) else Err(Redundant)
  }

  // ----------------------------------------------------------------- step

  predicate IsNodeCommand(c: Command) {
    c.SetNodeSlots? || c.Heartbeat? || c.FenceNode?
  }

  function NodeTransition(s: State, c: Command): StepResult
    requires IsNodeCommand(c)
  {
    match c
    case SetNodeSlots(_, n, slots) => SetNodeSlotsStep(s, n, slots)
    case Heartbeat(p) => HeartbeatStep(s, p.nodeId)
    case FenceNode(p, n, e, h) => FenceNodeStep(s, p, n, e, h)
  }

  predicate IsStreamCommand(c: Command) {
    || c.PlaceStream? || c.CreateStream? || c.CreateStreams? || c.OpenStream? || c.TrimStream?
    || c.CloseStream? || c.DeleteStream? || c.TransferStream? || c.CompleteTransfer?
  }

  ghost function StreamTransition(s: State, c: Command): StepResult
    requires IsStreamCommand(c)
  {
    match c
    case PlaceStream(_, id, requested) => PlaceStreamStep(s, id, requested)
    case CreateStream(_) => CreateStreamStep(s)
    case CreateStreams(_, count) => CreateStreamsStep(s, count)
    case OpenStream(p, id, e) => OpenStreamStep(s, p.nodeId, id, e)
    case TrimStream(p, id, e, start) => TrimStreamStep(s, p.nodeId, id, e, start)
    case CloseStream(p, id, e) => CloseStreamStep(s, p.nodeId, id, e)
    case DeleteStream(p, id, e) => DeleteStreamStep(s, p.nodeId, id, e)
    case TransferStream(_, id, f, t) => TransferStreamStep(s, id, f, t)
    case CompleteTransfer(_, id, e) => CompleteTransferStep(s, id, e)
  }

  predicate IsObjectCommand(c: Command) {
    || c.PrepareObject? || c.CommitStreamSetObject? || c.CompactStreamObject?
    || c.ExpirePreparedObjects? || c.CleanDestroyedObjects?
  }

  function ObjectTransition(s: State, c: Command): StepResult
    requires IsObjectCommand(c)
  {
    match c
    case PrepareObject(_, count, ttl, now) => PrepareObjectStep(s, count, ttl, now)
    case CommitStreamSetObject(p, r, now) => CommitStep(s, p.nodeId, r, now)
    case CompactStreamObject(_, r, now) => CompactStep(s, r, now)
    case ExpirePreparedObjects(_, now) => ExpireStep(s, now)
    case CleanDestroyedObjects(_, ids) => CleanStep(s, ids)
  }

  predicate IsKvCommand(c: Command) {
    c.PutKv? || c.PutKvIfAbsent? || c.DeleteKv? || c.DeleteKvIfMatches? || c.PutKvIfMatches?
  }

  function KvTransition(s: State, c: Command): StepResult
    requires IsKvCommand(c)
  {
    match c
    case PutKv(_, k, v) => PutKvStep(s, k, v)
    case PutKvIfAbsent(_, k, v) => PutKvIfAbsentStep(s, k, v)
    case DeleteKv(_, k) => DeleteKvStep(s, k)
    case DeleteKvIfMatches(_, k, e) => DeleteKvIfMatchesStep(s, k, e)
    case PutKvIfMatches(_, k, e, v) => PutKvIfMatchesStep(s, k, e, v)
  }

  /** The effect of a command whose proposer is live. */
  ghost function Transition(s: State, c: Command): StepResult
    requires !c.RegisterNode?
  {
    if IsNodeCommand(c) then NodeTransition(s, c)
    else if IsStreamCommand(c) then StreamTransition(s, c)
    else if IsObjectCommand(c) then ObjectTransition(s, c)
    else if IsKvCommand(c) then KvTransition(s, c)
    else AllocateProducerIdsStep(s, c.count)
  }

  /** One log entry: a live proposer's command takes effect, every other is refused. */
  ghost function Step(s: State, c: Command): StepResult {
    if c.RegisterNode? then
      Ok(RegisterNodeStep(s, c.nodeId, c.nodeEpoch, c.httpAddress, c.slots, c.protocolAddresses, c.wal))
    else if !Live(s, c.proposer) then Err(NodeEpochMismatch(c.proposer.nodeId))
    else Transition(s, c)
  }

  /** The state after one log entry; an error leaves it as it was. */
  ghost function Apply(s: State, c: Command): State {
    match Step(s, c)
    case Ok(a) => a.state
    case Err(_) => s
  }

  ghost function Run(s: State, cs: seq<Command>): State
    decreases |cs|
  {
    if cs == [] then s else Run(Apply(s, cs[0]), cs[1..])
  }

  lemma {:induction false} RunConcat(s: State, a: seq<Command>, b: seq<Command>)
    ensures Run(s, a + b) == Run(Run(s, a), b)
    decreases |a|
  {
    if a == [] {
      assert a + b == b;
    } else {
      assert (a + b)[1..] == a[1..] + b;
      RunConcat(Apply(s, a[0]), a[1..], b);
    }
  }

  lemma RunNext(s: State, log: seq<Command>, i: nat)
    requires i < |log|
    ensures Run(s, log[..i + 1]) == Apply(Run(s, log[..i]), log[i])
  {
    assert log[..i + 1] == log[..i] + [log[i]];
    RunConcat(s, log[..i], [log[i]]);
    assert Run(Run(s, log[..i]), [log[i]]) == Run(Apply(Run(s, log[..i]), log[i]), []);
  }
}
