/** Rows, requests, commands and results of the replicated metadata log. */
module MetadataTypes {
  import opened Prelude
  import opened Sorting

  /** Marks a request that commits no object of its own. */
  const NOOP_OBJECT_ID: nat := 0xFFFF_FFFF_FFFF_FFFF

  const MAX_CREATE_STREAMS: nat := 4096
  const MAX_ALLOCATE_PRODUCER_IDS: nat := 4096

  datatype StreamState = Closed | Opened

  datatype Stream = Stream(epoch: int, startOffset: nat, endOffset: nat, state: StreamState, nodeId: int)

  datatype Node = Node(epoch: int, httpAddress: Str, slots: nat, protocolAddresses: map<Str, Str>,
                       wal: Str, heartbeats: nat, fenced: bool)

  datatype Transfer = Transfer(fromNode: int, toNode: int)

  /** One slice of a stream inside a stream-set object, with its bytes. */
  datatype Slice = Slice(streamId: nat, startOffset: nat, endOffset: nat, size: nat)

  datatype SetObject = SetObject(nodeId: int, slices: seq<Slice>, objectSize: nat, attributes: nat,
                                 committedMs: int, dataMs: int, lastWriteMs: int)

  datatype StreamObject = StreamObject(streamId: nat, startOffset: nat, endOffset: nat, objectSize: nat,
                                       attributes: nat, committedMs: int, dataMs: int, lastWriteMs: int)

  /** How the cleaner treats a destroyed object. */
  datatype CompactOperation = Delete | KeepData | DeepDelete

  datatype NewStreamObject = NewStreamObject(objectId: nat, objectSize: nat, streamId: nat,
                                             startOffset: nat, endOffset: nat, attributes: nat)

  datatype CommitRequest = CommitRequest(objectId: nat, objectSize: nat, attributes: nat,
                                         slices: seq<Slice>, streamObjects: seq<NewStreamObject>,
                                         compacted: seq<nat>)

  datatype CompactRequest = CompactRequest(objectId: nat, objectSize: nat, streamId: nat, streamEpoch: nat,
                                           startOffset: nat, endOffset: nat, sources: seq<nat>,
                                           operations: seq<CompactOperation>, attributes: nat)

  datatype Proposer = Proposer(nodeId: int, nodeEpoch: int)

  datatype Command =
    | RegisterNode(nodeId: int, nodeEpoch: int, httpAddress: Str, slots: nat,
                   protocolAddresses: map<Str, Str>, wal: Str)
    | SetNodeSlots(proposer: Proposer, nodeId: int, slots: nat)
    | Heartbeat(proposer: Proposer)
    | FenceNode(proposer: Proposer, nodeId: int, nodeEpoch: int, heartbeats: nat)
    | PlaceStream(proposer: Proposer, streamId: nat, requested: Option<int>)
    | CreateStream(proposer: Proposer)
    | CreateStreams(proposer: Proposer, count: nat)
    | OpenStream(proposer: Proposer, streamId: nat, epoch: int)
    | TrimStream(proposer: Proposer, streamId: nat, epoch: int, newStartOffset: nat)
    | CloseStream(proposer: Proposer, streamId: nat, epoch: int)
    | DeleteStream(proposer: Proposer, streamId: nat, epoch: int)
    | PrepareObject(proposer: Proposer, count: nat, ttlMs: int, nowMs: int)
    | CommitStreamSetObject(proposer: Proposer, commit: CommitRequest, nowMs: int)
    | CompactStreamObject(proposer: Proposer, compact: CompactRequest, nowMs: int)
    | ExpirePreparedObjects(proposer: Proposer, nowMs: int)
    | CleanDestroyedObjects(proposer: Proposer, objectIds: seq<nat>)
    | PutKv(proposer: Proposer, key: Str, value: Str)
    | PutKvIfAbsent(proposer: Proposer, key: Str, value: Str)
    | DeleteKv(proposer: Proposer, key: Str)
    | DeleteKvIfMatches(proposer: Proposer, key: Str, expected: Str)
    | PutKvIfMatches(proposer: Proposer, key: Str, expected: Str, value: Str)
    | TransferStream(proposer: Proposer, streamId: nat, fromNode: int, toNode: int)
    | CompleteTransfer(proposer: Proposer, streamId: nat, epoch: int)
    | AllocateProducerIds(proposer: Proposer, count: nat)

  datatype MetadataError =
    | StreamNotExist(streamId: nat)
    | StreamNotClosed(streamId: nat)
    | StreamFenced(streamId: nat, epoch: int)
    | ExpiredEpoch(streamId: nat, epoch: int)
    | NodeEpochMismatch(nodeId: int)
    | Redundant
    | NoLiveNode
    | Unexpected

  datatype StreamMetadata = StreamMetadata(streamId: nat, epoch: nat, startOffset: nat, endOffset: nat,
                                           state: StreamState, nodeId: int)

  datatype MetadataResult =
    | Unit
    | Id(id: nat)
    | Count(count: nat)
    | Opening(stream: StreamMetadata)
    | Value(value: Option<Str>)

  type Outcome<T> = Result<T, MetadataError>

  /** `x as u64` for a signed 64-bit `x`: two's complement. */
  function AsU64(x: int): nat {
    x % 0x1_0000_0000_0000_0000
  }

  /** `x as i64` for an unsigned 64-bit `x`. */
  function AsI64(x: nat): int {
    if x < 0x8000_0000_0000_0000 then x else x - 0x1_0000_0000_0000_0000
  }

  function Describe(streamId: nat, s: Stream): StreamMetadata {
    StreamMetadata(streamId, Max(s.epoch, 0), s.startOffset, s.endOffset, s.state, s.nodeId)
  }

  /** Sort key of a committed slice or stream object. */
  datatype OffsetKey = OffsetKey(stream: nat, start: nat, objectId: nat)

  predicate KeyLeq(a: OffsetKey, b: OffsetKey) {
    || a.stream < b.stream
    || (a.stream == b.stream && a.start < b.start)
    || (a.stream == b.stream && a.start == b.start && a.objectId <= b.objectId)
  }

  /** Keys in scan order. */
  function SortKeys(s: set<OffsetKey>): (q: seq<OffsetKey>)
    ensures forall k :: k in q <==> k in s
    ensures |q| == |s| && NoDuplicates(q) && Ordered(KeyLeq, q)
  {
    assert TotalOrder(KeyLeq);
    Sort(KeyLeq, s)
  }

  function ObjectsOf(keys: seq<OffsetKey>): seq<nat> {
    seq(|keys|, i requires 0 <= i < |keys| => keys[i].objectId)
  }
}
