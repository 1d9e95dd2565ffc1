/** The metadata state as it is kept: primary tables, secondary indexes and running counters, updated in
    place. Every operation is proved to do to the primary tables exactly what the index-free
    specification says, and to leave each index equal to what it is derived from. */
module MetadataStore {
  import opened Prelude
  import opened Sorting
  import opened Sums
  import opened MetadataTypes
  import opened Metadata
  import opened Indexes
  import opened References
  import opened Placement
  import opened ObjectLifecycle
  import opened Frames

  class MetadataState {
    var nextStreamId: nat
    var streams: map<nat, StreamRow>
    var nodes: map<int, Node>
    var openingByNode: set<(int, nat)>
    var placedByNode: set<(int, nat)>
    var streamsByNode: map<int, nat>
    var pendingTransfers: map<nat, Transfer>
    var epochs: map<(nat, int), nat>
    var nextProducerId: nat
    var nextObjectId: nat
    var prepared: map<nat, int>
    var preparedByDeadline: set<(int, nat)>
    var streamSetObjects: map<nat, SetObject>
    var ssoRanges: map<OffsetKey, (nat, nat)>
    var ssoByNode: set<(int, nat)>
    var streamObjects: map<OffsetKey, StreamObject>
    var streamObjectIds: map<nat, OffsetKey>
    var markDestroyed: map<nat, (nat, CompactOperation)>
    var destroyedById: map<nat, nat>
    var nextDestroyedSeq: nat
    var kv: map<Str, Str>
    var kvBytes: nat
    var storedBytes: nat

    // the tables as the specification keys them
    ghost var logical: map<nat, Stream>
    ghost var objectsById: map<nat, StreamObject>
    ghost var marks: map<nat, Mark>

    ghost predicate StreamsIndexed()
      reads `streams, `logical, `openingByNode, `placedByNode, `streamsByNode
    {
      RowsHold(streams, logical) && NodeIndexes(logical, openingByNode, placedByNode, streamsByNode)
    }

    ghost predicate LeasesIndexed()
      reads `prepared, `preparedByDeadline
    {
      DeadlinesIndexed(prepared, preparedByDeadline)
    }

    ghost predicate SetsIndexed()
      reads `streamSetObjects, `ssoRanges, `ssoByNode
    {
      RangesIndexed(streamSetObjects, ssoRanges) && SetsByNode(streamSetObjects, ssoByNode)
    }

    ghost predicate StreamObjectsIndexed()
      reads `streamObjects, `streamObjectIds, `objectsById
    {
      ObjectsIndexed(streamObjects, streamObjectIds, objectsById)
    }

    ghost predicate DestroyedIndexed()
      reads `markDestroyed, `destroyedById, `nextDestroyedSeq, `marks
    {
      QueueIndexed(markDestroyed, destroyedById, nextDestroyedSeq, marks)
    }

    ghost predicate KvCounted()
      reads `kv, `kvBytes
    {
      kvBytes == Total(KvSizes(kv))
    }

    ghost predicate Counted()
      reads `streams, `streamSetObjects, `objectsById, `storedBytes
    {
      BytesCounted(streams, streamSetObjects, objectsById, storedBytes)
    }

    /** Every index and counter equals what the primary tables derive. */
    ghost predicate Indexed()
      reads this
    {
      && StreamsIndexed() && LeasesIndexed() && SetsIndexed() && StreamObjectsIndexed()
      && DestroyedIndexed() && KvCounted() && Counted()
    }

    ghost predicate Valid()
      reads this
    {
      Indexed() && Referential(View())
    }

    /** The primary tables. */
    ghost function View(): State
      reads this
    {
      State(nextStreamId, logical, nodes, pendingTransfers, epochs, nextProducerId,
            Objects(nextObjectId, prepared, streamSetObjects, objectsById, Garbage(marks, nextDestroyedSeq)),
            kv)
    }

    constructor ()
      ensures Valid() && View() == Empty
    {
      nextStreamId, nextProducerId, nextObjectId, nextDestroyedSeq, kvBytes, storedBytes := 0, 0, 0, 0, 0, 0;
      streams, nodes, streamsByNode, pendingTransfers, epochs := map[], map[], map[], map[], map[];
      openingByNode, placedByNode, preparedByDeadline, ssoByNode := {}, {}, {}, {};
      prepared, streamSetObjects, ssoRanges, streamObjects, streamObjectIds := map[], map[], map[], map[], map[];
      markDestroyed, destroyedById, kv := map[], map[], map[];
      logical, objectsById, marks := map[], map[], map[];
      new;
      assert forall n :: StreamsOn(logical, n) == {};
    }

    // -------------------------------------------------------- stream rows

    method Unindex(id: nat, row: Stream, ghost all: map<nat, Stream>)
      requires NodeIndexes(all, openingByNode, placedByNode, streamsByNode) && id in all && all[id] == row
      modifies `openingByNode, `placedByNode, `streamsByNode
      ensures NodeIndexes(all - {id}, openingByNode, placedByNode, streamsByNode)
    {
      var key := (row.nodeId, id);
      assert AtPair(key);
      var wasOpened := key in openingByNode;
      var wasPlaced := key in placedByNode;
      openingByNode := openingByNode - {key};
      placedByNode := placedByNode - {key};
      ghost var before := streamsByNode;
      if wasOpened || wasPlaced {
        if row.nodeId in streamsByNode && streamsByNode[row.nodeId] > 1 {
          streamsByNode := streamsByNode[row.nodeId := streamsByNode[row.nodeId] - 1];
        } else {
          streamsByNode := streamsByNode - {row.nodeId};
        }
      }
      CountsAfterRemoval(all, id, before, streamsByNode);
    }

    method Index(id: nat, row: Stream, ghost others: map<nat, Stream>)
      requires NodeIndexes(others, openingByNode, placedByNode, streamsByNode) && id !in others
      modifies `openingByNode, `placedByNode, `streamsByNode
      ensures NodeIndexes(others[id := row], openingByNode, placedByNode, streamsByNode)
    {
      var key := (row.nodeId, id);
      ghost var before := streamsByNode;
      if row.state.Opened? {
        openingByNode := openingByNode + {key};
      } else if row.nodeId != -1 {
        placedByNode := placedByNode + {key};
      }
      if row.state.Opened? || row.nodeId != -1 {
        var count := if row.nodeId in streamsByNode then streamsByNode[row.nodeId] else 0;
        streamsByNode := streamsByNode[row.nodeId := count + 1];
      }
      CountsAfterInsert(others, id, row, before, streamsByNode);
    }

    /** Streams with an id from `next` on hold no bytes. */
    ghost predicate NothingStoredFrom(next: nat)
      reads `streamSetObjects, `objectsById
    {
      forall id {:trigger AtStream(id)} :: AtStream(id) && next <= id ==> StreamBytes(streamSetObjects, objectsById, id) == 0
    }

    /** Stores the row, keeping the bytes counted for it. */
    method PutStream(id: nat, st: Stream)
      requires StreamsIndexed() && Counted()
      requires id in streams || NothingStoredFrom(id)
      modifies `streams, `logical, `openingByNode, `placedByNode, `streamsByNode
      ensures StreamsIndexed() && Counted() && logical == old(logical)[id := st]
    {
      ghost var before := logical;
      var known := id in streams;
      var bytes := if known then streams[id].storedBytes else 0;
      var previous := if known then streams[id].stream else st;
      assert AtStream(id);
      BytesAfterPut(streams, id, StreamRow(st, bytes), streamSetObjects, objectsById, storedBytes);
      streams := streams[id := StreamRow(st, bytes)];
      logical := logical[id := st];
      if known && previous.state == st.state && previous.nodeId == st.nodeId {
        NodeIndexesSameOwner(before, id, st, openingByNode, placedByNode, streamsByNode);
        return;
      }
      if known {
        Unindex(id, previous, before);
      }
      assert known || before - {id} == before;
      Index(id, st, before - {id});
      assert (before - {id})[id := st] == before[id := st];
    }

    method RemoveStream(id: nat)
      requires StreamsIndexed() && Counted()
      modifies `streams, `logical, `openingByNode, `placedByNode, `streamsByNode
      ensures StreamsIndexed() && Counted() && logical == old(logical) - {id}
    {
      ghost var before := logical;
      logical := logical - {id};
      if id in streams {
        var previous := streams[id].stream;
        streams := streams - {id};
        Unindex(id, previous, before);
      } else {
        assert logical == before;
      }
    }

    // -------------------------------------------------------------- leases

    /** Nothing takes a former deadline out of the index. */
    method PutPrepared(id: nat, deadline: int)
      requires LeasesIndexed()
      modifies `prepared, `preparedByDeadline
      ensures prepared == old(prepared)[id := deadline] && preparedByDeadline == old(preparedByDeadline) + {(deadline, id)}
      ensures LeasesIndexed() <==> (id in old(prepared) ==> old(prepared)[id] == deadline)
    {
      if id in prepared { assert AtPair((prepared[id], id)); }
      prepared := prepared[id := deadline];
      preparedByDeadline := preparedByDeadline + {(deadline, id)};
    }

    method RemovePrepared(id: nat)
      requires LeasesIndexed()
      modifies `prepared, `preparedByDeadline
      ensures LeasesIndexed() && prepared == old(prepared) - {id}
    {
      if id in prepared {
        var deadline := prepared[id];
        prepared := prepared - {id};
        preparedByDeadline := preparedByDeadline - {(deadline, id)};
      }
    }

    // -------------------------------------------------------------- objects

    /** Counts bytes for a stream, if it still exists. */
    method AddStreamBytes(id: nat, bytes: nat)
      modifies `streams
      ensures Credited(old(streams), streams, id, bytes)
    {
      if id in streams {
        streams := streams[id := streams[id].(storedBytes := streams[id].storedBytes + bytes)];
      }
    }

    /** Takes off bytes that were counted; below zero the counter wraps round. */
    method RemoveStreamBytes(id: nat, bytes: nat)
      modifies `streams
      ensures (id in old(streams) ==> bytes <= old(streams)[id].storedBytes) ==> Credited(streams, old(streams), id, bytes)
      ensures id in old(streams) && bytes > old(streams)[id].storedBytes ==>
                streams == old(streams)[id := StreamRow(old(streams)[id].stream, AsU64(old(streams)[id].storedBytes - bytes))]
    {
      if id in streams {
        var left: int := streams[id].storedBytes - bytes;
        streams := streams[id := streams[id].(storedBytes := if left < 0 then AsU64(left) else left)];
      }
    }

    method DropStreamObject(id: nat)
      requires RowsHold(streams, logical) && StreamObjectsIndexed() && Counted()
      modifies `streams, `streamObjects, `streamObjectIds, `objectsById, `storedBytes
      ensures RowsHold(streams, logical) && StreamObjectsIndexed() && Counted()
      ensures objectsById == old(objectsById) - {id}
    {
      if id in streamObjectIds {
        assert AtObject(id);
        var key := streamObjectIds[id];
        var row := streamObjects[key];
        ghost var rows, total := streams, storedBytes;
        CountedCoversObject(streams, streamSetObjects, objectsById, id, storedBytes);
        RemoveStreamBytes(key.stream, row.objectSize);
        storedBytes := storedBytes - row.objectSize;
        BytesAfterObjectDrop(rows, streams, streamSetObjects, objectsById, id, total);
        ObjectsAfterDrop(streamObjects, streamObjectIds, objectsById, id);
        streamObjectIds := streamObjectIds - {id};
        streamObjects := streamObjects - {key};
        objectsById := objectsById - {id};
      } else {
        assert objectsById - {id} == objectsById;
      }
    }

    method InsertStreamObject(id: nat, row: StreamObject)
      requires RowsHold(streams, logical) && StreamObjectsIndexed() && Counted() && id !in objectsById
      modifies `streams, `streamObjects, `streamObjectIds, `objectsById, `storedBytes
      ensures RowsHold(streams, logical) && StreamObjectsIndexed() && Counted()
      ensures objectsById == old(objectsById)[id := row]
    {
      ghost var before, rows, total := objectsById, streams, storedBytes;
      var key := OffsetKey(row.streamId, row.startOffset, id);
      AddStreamBytes(row.streamId, row.objectSize);
      storedBytes := storedBytes + row.objectSize;
      ObjectsAfterPut(streamObjects, streamObjectIds, objectsById, id, row);
      streamObjectIds := streamObjectIds[id := key];
      streamObjects := streamObjects[key := row];
      objectsById := objectsById[id := row];
      BytesAfterObjectPut(rows, streams, streamSetObjects, before, id, row, total);
    }

    /** A row under an id replaces whatever row that id had. */
    method StoreStreamObject(id: nat, row: StreamObject)
      requires RowsHold(streams, logical) && StreamObjectsIndexed() && Counted()
      modifies `streams, `streamObjects, `streamObjectIds, `objectsById, `storedBytes
      ensures RowsHold(streams, logical) && StreamObjectsIndexed() && Counted()
      ensures objectsById == old(objectsById)[id := row]
    {
      DropStreamObject(id);
      InsertStreamObject(id, row);
    }

    method TakeSlices(id: nat, xs: seq<Slice>)
      requires forall s :: s in streams ==> SliceBytes(xs, s) <= streams[s].storedBytes
      modifies `streams, `ssoRanges
      ensures Gave(streams, old(streams), xs) && Taken(old(ssoRanges), ssoRanges, id, xs)
    {
      ghost var rows := streams;
      for i := 0 to |xs|
        invariant Gave(streams, rows, xs[..i]) && Taken(old(ssoRanges), ssoRanges, id, xs[..i])
      {
        var x := xs[i];
        assert xs[..i + 1][..i] == xs[..i];
        if x.streamId in streams { SliceBytesOfPrefix(xs, i + 1, x.streamId); }
        ssoRanges := ssoRanges - {OffsetKey(x.streamId, x.startOffset, id)};
        RemoveStreamBytes(x.streamId, x.size);
      }
      assert xs[..|xs|] == xs;
    }

    method GiveSlices(id: nat, xs: seq<Slice>)
      modifies `streams, `ssoRanges
      ensures Gave(old(streams), streams, xs) && Entered(old(ssoRanges), ssoRanges, id, xs)
    {
      ghost var rows := streams;
      for i := 0 to |xs|
        invariant Gave(rows, streams, xs[..i]) && Entered(old(ssoRanges), ssoRanges, id, xs[..i])
      {
        var x := xs[i];
        assert xs[..i + 1][..i] == xs[..i];
        ssoRanges := ssoRanges[OffsetKey(x.streamId, x.startOffset, id) := (x.endOffset, x.size)];
        AddStreamBytes(x.streamId, x.size);
      }
      assert xs[..|xs|] == xs;
    }

    method DropSetObject(id: nat)
      requires RowsHold(streams, logical) && SetsIndexed() && Counted()
      modifies `streams, `streamSetObjects, `ssoRanges, `ssoByNode, `storedBytes
      ensures RowsHold(streams, logical) && SetsIndexed() && Counted()
      ensures streamSetObjects == old(streamSetObjects) - {id}
    {
      ghost var before := streamSetObjects;
      if id !in streamSetObjects {
        assert streamSetObjects - {id} == streamSetObjects;
        return;
      }
      var row := streamSetObjects[id];
      streamSetObjects := streamSetObjects - {id};
      CountedCoversSet(streams, before, objectsById, id, storedBytes);
      ghost var rows, ranges, total := streams, ssoRanges, storedBytes;
      TakeSlices(id, row.slices);
      storedBytes := storedBytes - row.objectSize;
      ssoByNode := ssoByNode - {(row.nodeId, id)};
      RangesAfterDrop(before, ranges, ssoRanges, id);
      BytesAfterSetDrop(rows, streams, before, objectsById, id, total);
    }

    method StoreSetObject(id: nat, row: SetObject)
      requires RowsHold(streams, logical) && SetsIndexed() && Counted()
      modifies `streams, `streamSetObjects, `ssoRanges, `ssoByNode, `storedBytes
      ensures RowsHold(streams, logical) && SetsIndexed() && Counted()
      ensures streamSetObjects == old(streamSetObjects)[id := row]
    {
      DropSetObject(id);
      ghost var before, rows, ranges, total := streamSetObjects, streams, ssoRanges, storedBytes;
      GiveSlices(id, row.slices);
      storedBytes := storedBytes + row.objectSize;
      ssoByNode := ssoByNode + {(row.nodeId, id)};
      streamSetObjects := streamSetObjects[id := row];
      RangesAfterPut(before, ranges, ssoRanges, id, row);
      BytesAfterSetPut(rows, streams, before, objectsById, id, row, total);
    }

    // ------------------------------------------------------------- the queue

    method PutDestroyed(seqNo: nat, id: nat, op: CompactOperation)
      requires DestroyedIndexed() && seqNo < nextDestroyedSeq
      requires if id in destroyedById then destroyedById[id] == seqNo else seqNo !in markDestroyed
      modifies `markDestroyed, `destroyedById, `marks
      ensures DestroyedIndexed()
      ensures marks == old(marks)[id := Mark(seqNo, op)]
    {
      assert AtObject(id) && AtSeq(seqNo);
      markDestroyed := markDestroyed[seqNo := (id, op)];
      destroyedById := destroyedById[id := seqNo];
      marks := marks[id := Mark(seqNo, op)];
    }

    method RemoveDestroyed(id: nat)
      requires DestroyedIndexed()
      modifies `markDestroyed, `destroyedById, `marks
      ensures DestroyedIndexed()
      ensures marks == old(marks) - {id}
    {
      marks := marks - {id};
      if id in destroyedById {
        assert AtObject(id);
        var seqNo := destroyedById[id];
        destroyedById := destroyedById - {id};
        markDestroyed := markDestroyed - {seqNo};
      }
    }

    /** Queues the object; one already queued keeps its place. */
    method MarkObjectDestroyed(id: nat, op: CompactOperation)
      requires DestroyedIndexed()
      modifies `markDestroyed, `destroyedById, `nextDestroyedSeq, `marks
      ensures DestroyedIndexed()
      ensures Garbage(marks, nextDestroyedSeq) == MarkOne(Garbage(old(marks), old(nextDestroyedSeq)), id, op)
    {
      assert AtObject(id) && AtSeq(nextDestroyedSeq);
      if id in destroyedById {
        assert AtSeq(destroyedById[id]);
        PutDestroyed(destroyedById[id], id, op);
      } else {
        var seqNo := nextDestroyedSeq;
        nextDestroyedSeq := nextDestroyedSeq + 1;
        PutDestroyed(seqNo, id, op);
      }
    }

    // -------------------------------------------------------------------- kv

    method StoreKv(key: Str, value: Str)
      requires KvCounted()
      modifies `kv, `kvBytes
      ensures KvCounted() && kv == old(kv)[key := value]
    {
      ghost var before := kv;
      var known := key in kv;
      kvBytes := kvBytes + |key| + |value|;
      var previous := if known then kv[key] else [];
      kv := kv[key := value];
      KvTotalsWithout(kv, key);
      assert kv - {key} == before - {key};
      if known {
        KvTotalsWithout(before, key);
        kvBytes := kvBytes - (|key| + |previous|);
      } else {
        assert before - {key} == before;
      }
    }

    method DropKv(key: Str) returns (removed: Option<Str>)
      requires KvCounted()
      modifies `kv, `kvBytes
      ensures KvCounted() && kv == old(kv) - {key}
      ensures removed == if key in old(kv) then Some(old(kv)[key]) else None
    {
      if key !in kv {
        return None;
      }
      KvTotalsWithout(kv, key);
      removed := Some(kv[key]);
      kvBytes := kvBytes - (|key| + |kv[key]|);
      kv := kv - {key};
    }

    // --------------------------------------------------------------- nodes

    method RegisterNode(n: int, epoch: int, http: Str, slots: nat, addresses: map<Str, Str>, wal: Str)
      returns (r: MetadataResult)
      modifies `nodes
      ensures Applied(View(), r) == RegisterNodeStep(old(View()), n, epoch, http, slots, addresses, wal)
    {
      var newEpoch := epoch;
      var node := Node(epoch, http, slots, addresses, wal, 0, false);
      if n in nodes {
        var stored := nodes[n];
        newEpoch := Max(epoch, stored.epoch + 1);
        node := Node(newEpoch,
                     if http == [] then stored.httpAddress else http, slots,
                     if addresses == map[] then stored.protocolAddresses else addresses,
                     if wal == [] then stored.wal else wal, stored.heartbeats, false);
      }
      nodes := nodes[n := node];
      r := Id(AsU64(newEpoch));
    }

    method SetNodeSlots(n: int, slots: nat) returns (r: Outcome<MetadataResult>)
      modifies `nodes
      ensures Answers(r, View(), SetNodeSlotsStep(old(View()), n, slots))
    {
      if n !in nodes {
        return Err(NodeEpochMismatch(n));
      }
      nodes := nodes[n := nodes[n].(slots := slots)];
      return Ok(Unit);
    }

    method Heartbeat(n: int) returns (r: Outcome<MetadataResult>)
      modifies `nodes
      ensures Answers(r, View(), HeartbeatStep(old(View()), n))
    {
      if n in nodes {
        nodes := nodes[n := nodes[n].(heartbeats := nodes[n].heartbeats + 1)];
      }
      return Ok(Unit);
    }

    method FenceNode(p: Proposer, n: int, epoch: int, heartbeats: nat) returns (r: Outcome<MetadataResult>)
      modifies `nodes
      ensures Answers(r, View(), FenceNodeStep(old(View()), p, n, epoch, heartbeats))
    {
      var leaving := p == Proposer(n, epoch);
      if n !in nodes {
        return Err(NodeEpochMismatch(n));
      }
      var node := nodes[n];
      if node.fenced || node.epoch != epoch || (!leaving && node.heartbeats != heartbeats) {
        return Err(Redundant);
      }
      nodes := nodes[n := node.(fenced := true)];
      return Ok(Unit);
    }

    // ------------------------------------------------------------- streams

    predicate NodeIsLive(n: int)
      reads `nodes
    {
      n in nodes && !nodes[n].fenced
    }

    predicate OwnerAllows(st: Stream, n: int)
      reads `nodes
    {
      st.nodeId == n || !NodeIsLive(st.nodeId)
    }

    method CreateStream() returns (r: Outcome<MetadataResult>)
      requires StreamsIndexed() && Counted() && NothingStoredFrom(nextStreamId)
      modifies `streams, `logical, `openingByNode, `placedByNode, `streamsByNode, `nextStreamId
      ensures StreamsIndexed() && Counted()
      ensures Answers(r, View(), CreateStreamStep(old(View())))
    {
      var id := nextStreamId;
      PutStream(id, NewStream);
      nextStreamId := id + 1;
      r := Ok(Id(id));
    }

    method PutNewStreams(first: nat, count: nat)
      requires StreamsIndexed() && Counted() && NothingStoredFrom(first)
      modifies `streams, `logical, `openingByNode, `placedByNode, `streamsByNode
      ensures StreamsIndexed() && Counted()
      ensures logical == old(logical) + Block(first, count, NewStream)
    {
      for i := 0 to count
        invariant StreamsIndexed() && Counted()
        invariant logical == old(logical) + Block(first, i, NewStream)
      {
        PutStream(first + i, NewStream);
        BlockGrows(old(logical), first, i, NewStream);
      }
    }

    method CreateStreams(count: nat) returns (r: Outcome<MetadataResult>)
      requires StreamsIndexed() && Counted() && NothingStoredFrom(nextStreamId)
      modifies `streams, `logical, `openingByNode, `placedByNode, `streamsByNode, `nextStreamId
      ensures StreamsIndexed() && Counted()
      ensures Answers(r, View(), CreateStreamsStep(old(View()), count))
    {
      if count == 0 || count > MAX_CREATE_STREAMS {
        return Err(Unexpected);
      }
      var first := nextStreamId;
      PutNewStreams(first, count);
      nextStreamId := first + count;
      return Ok(Id(first));
    }

    /** Streams per slot, times a thousand, read off the node's counter. */
    function NodeScore(n: int): (score: nat)
      requires StreamsIndexed() && NodeIsLive(n) && nodes[n].slots >= 1
      reads `streams, `logical, `openingByNode, `placedByNode, `streamsByNode, `nodes
      ensures score == |StreamsOn(logical, n)| * 1000 / nodes[n].slots
    {
      assert AtNode(n);
      assert n !in streamsByNode ==> StreamsOn(logical, n) == {};
      var load := if n in streamsByNode then streamsByNode[n] else 0;
      load * 1000 / nodes[n].slots
    }

    /** The better of the best node so far and the next one. */
    method Consider(winner: Option<int>, n: int) returns (next: Option<int>)
      requires StreamsIndexed() && (winner.Some? ==> Eligible(View(), winner.value))
      ensures next == if Improves(View(), winner, n) then Some(n) else winner
    {
      next := winner;
      if NodeIsLive(n) && nodes[n].slots >= 1 {
        if winner.None? || NodeScore(n) < NodeScore(winner.value)
           || (NodeScore(n) == NodeScore(winner.value) && n < winner.value)
        {
          next := Some(n);
        }
      }
    }

    /** The live node with slots of lowest score, lowest id first. */
    method FindLeastLoaded() returns (winner: Option<int>)
      requires StreamsIndexed()
      ensures winner == LeastLoaded(View())
    {
      winner := None;
      var order := SortInts(nodes.Keys);
      for i := 0 to |order|
        invariant BestAmong(View(), order[..i], winner)
      {
        var next := Consider(winner, order[i]);
        BestAmongPrefix(View(), order, i, winner, next);
        winner := next;
      }
      assert order[..|order|] == order;
      BestOfAll(View(), order, winner);
    }

    method ChooseNode(requested: Option<int>) returns (winner: Option<int>)
      requires StreamsIndexed()
      ensures winner == ChosenNode(View(), requested)
    {
      match requested {
        case Some(n) =>
          winner := if NodeIsLive(n) && nodes[n].slots >= 1 then Some(n) else None;
        case None =>
          winner := FindLeastLoaded();
      }
    }

    method PlaceStream(id: nat, requested: Option<int>) returns (r: Outcome<MetadataResult>)
      requires StreamsIndexed() && Counted()
      modifies `streams, `logical, `openingByNode, `placedByNode, `streamsByNode
      ensures StreamsIndexed() && Counted()
      ensures Answers(r, View(), PlaceStreamStep(old(View()), id, requested))
    {
      if id !in streams {
        return Err(StreamNotExist(id));
      }
      var st := streams[id].stream;
      if st.state.Opened? || NodeIsLive(st.nodeId) {
        return Ok(Id(AsU64(st.nodeId)));
      }
      var winner := ChooseNode(requested);
      if winner.None? {
        return Err(NoLiveNode);
      }
      PutStream(id, st.(nodeId := winner.value));
      return Ok(Id(AsU64(winner.value)));
    }

    method RecordOpen(id: nat, st: Stream, start: nat)
      requires StreamsIndexed() && Counted() && id in streams
      modifies `streams, `logical, `openingByNode, `placedByNode, `streamsByNode, `epochs
      ensures StreamsIndexed() && Counted()
      ensures logical == old(logical)[id := st] && epochs == old(epochs)[(id, st.epoch) := start]
    {
      PutStream(id, st);
      epochs := epochs[(id, st.epoch) := start];
    }

    method OpenStream(n: int, id: nat, epoch: int) returns (r: Outcome<MetadataResult>)
      requires StreamsIndexed() && Counted()
      modifies `streams, `logical, `openingByNode, `placedByNode, `streamsByNode, `epochs
      ensures StreamsIndexed() && Counted()
      ensures Answers(r, View(), OpenStreamStep(old(View()), n, id, epoch))
    {
      if id !in streams {
        return Err(StreamNotExist(id));
      }
      var st := streams[id].stream;
      if st.epoch > epoch {
        return Err(StreamFenced(id, epoch));
      }
      if st.epoch == epoch {
        if st.state.Opened? && st.nodeId == n {
          return Ok(Opening(Describe(id, st)));
        }
        return Err(StreamFenced(id, epoch));
      }
      if st.state.Opened? {
        return Err(StreamNotClosed(id));
      }
      var row := st.(epoch := epoch, state := Opened, nodeId := n);
      RecordOpen(id, row, st.endOffset);
      return Ok(Opening(Describe(id, row)));
    }

    method CloseStream(n: int, id: nat, epoch: int) returns (r: Outcome<MetadataResult>)
      requires StreamsIndexed() && Counted()
      modifies `streams, `logical, `openingByNode, `placedByNode, `streamsByNode
      ensures StreamsIndexed() && Counted()
      ensures Answers(r, View(), CloseStreamStep(old(View()), n, id, epoch))
    {
      if id !in streams {
        return Err(StreamNotExist(id));
      }
      var st := streams[id].stream;
      if st.state.Closed? && st.epoch == epoch {
        return Ok(Unit);
      }
      if !OwnerAllows(st, n) {
        return Err(StreamFenced(id, st.epoch));
      }
      if !st.state.Opened? {
        return Err(Unexpected);
      }
      if st.epoch != epoch {
        return Err(ExpiredEpoch(id, epoch));
      }
      PutStream(id, st.(state := Closed));
      return Ok(Unit);
    }

    method TransferStream(id: nat, fromNode: int, toNode: int) returns (r: Outcome<MetadataResult>)
      requires RowsHold(streams, logical)
      modifies `pendingTransfers
      ensures Answers(r, View(), TransferStreamStep(old(View()), id, fromNode, toNode))
    {
      if id !in streams {
        return Err(StreamNotExist(id));
      }
      if id in pendingTransfers {
        if pendingTransfers[id].fromNode == fromNode && pendingTransfers[id].toNode == toNode {
          return Ok(Unit);
        }
        return Err(Unexpected);
      }
      if fromNode == toNode {
        return Err(Unexpected);
      }
      if !(NodeIsLive(toNode) && nodes[toNode].slots >= 1) {
        return Err(NodeEpochMismatch(toNode));
      }
      if !streams[id].stream.state.Opened? || streams[id].stream.nodeId != fromNode {
        return Err(Unexpected);
      }
      pendingTransfers := pendingTransfers[id := Transfer(fromNode, toNode)];
      return Ok(Unit);
    }

    method Retarget(id: nat, st: Stream)
      requires StreamsIndexed() && Counted() && id in streams
      modifies `streams, `logical, `openingByNode, `placedByNode, `streamsByNode, `pendingTransfers
      ensures StreamsIndexed() && Counted()
      ensures logical == old(logical)[id := st] && pendingTransfers == old(pendingTransfers) - {id}
    {
      PutStream(id, st);
      pendingTransfers := pendingTransfers - {id};
    }

    method CompleteTransfer(id: nat, epoch: int) returns (r: Outcome<MetadataResult>)
      requires StreamsIndexed() && Counted()
      modifies `streams, `logical, `openingByNode, `placedByNode, `streamsByNode, `pendingTransfers
      ensures StreamsIndexed() && Counted()
      ensures Answers(r, View(), CompleteTransferStep(old(View()), id, epoch))
    {
      if id !in pendingTransfers {
        r := Err(Redundant);
      } else if id !in streams {
        r := Err(StreamNotExist(id));
      } else {
        var st := streams[id].stream;
        if !st.state.Closed? {
          r := Err(StreamNotClosed(id));
        } else if st.epoch != epoch {
          r := Err(ExpiredEpoch(id, epoch));
        } else {
          Retarget(id, st.(nodeId := pendingTransfers[id].toNode));
          r := Ok(Unit);
        }
      }
    }

    /** The recorded epochs of the stream, oldest first. */
    function StreamEpochs(id: nat): (es: seq<int>)
      reads `epochs
      ensures EpochList(epochs, id, es)
    {
      var recorded := set k | k in epochs && k.0 == id :: k.1;
      assert forall e :: e in recorded ==> (id, e) in epochs by {
        forall e | e in recorded ensures (id, e) in epochs {
          var k :| k in epochs && k.0 == id && k.1 == e;
          assert k == (id, e);
        }
      }
      assert forall e :: (id, e) in epochs ==> e in recorded;
      var es := SortInts(recorded);
      assert forall i :: 0 <= i < |es| ==> es[i] in recorded;
      es
    }

    method DropEpochsListed(id: nat, es: seq<int>)
      modifies `epochs
      ensures forall k :: k in epochs <==> k in old(epochs) && !(k.0 == id && k.1 in es)
      ensures forall k :: k in epochs ==> epochs[k] == old(epochs)[k]
    {
      for j := 0 to |es|
        invariant forall k :: k in epochs <==> k in old(epochs) && !(k.0 == id && k.1 in es[..j])
        invariant forall k :: k in epochs ==> epochs[k] == old(epochs)[k]
      {
        epochs := epochs - {(id, es[j])};
        assert es[..j + 1] == es[..j] + [es[j]];
      }
      assert es[..|es|] == es;
    }

    method DropAllEpochs(id: nat)
      modifies `epochs
      ensures epochs == DropEpochs(old(epochs), id)
    {
      var es := StreamEpochs(id);
      DropEpochsListed(id, es);
      forall k | k in old(epochs) && k.0 == id ensures k.1 in es {
        assert k == (id, k.1);
      }
    }

    /** Drops the epochs a later one has superseded from `offset` on. */
    method DropSupersededEpochs(id: nat, offset: nat)
      modifies `epochs
      ensures epochs == PruneEpochs(old(epochs), id, offset)
    {
      var es := StreamEpochs(id);
      var n := 0;
      while n < |es| && epochs[(id, es[n])] <= offset
        invariant n <= |es|
        invariant forall i :: 0 <= i < n ==> epochs[(id, es[i])] <= offset
      {
        n := n + 1;
      }
      ghost var before := epochs;
      DropEpochsListed(id, es[..if n == 0 then 0 else n - 1]);
      PrunedByPrefix(before, id, es, n, offset, epochs);
    }

    /** Drops the objects under the given keys and queues them for deletion, in order. */
    method DestroyObjects(keys: seq<OffsetKey>)
      requires RowsHold(streams, logical) && StreamObjectsIndexed() && Counted() && DestroyedIndexed()
      modifies `streams, `streamObjects, `streamObjectIds, `objectsById, `storedBytes
      modifies `markDestroyed, `destroyedById, `nextDestroyedSeq, `marks
      ensures RowsHold(streams, logical) && StreamObjectsIndexed() && Counted() && DestroyedIndexed()
      ensures objectsById == old(objectsById) - IdSet(ObjectsOf(keys))
      ensures Garbage(marks, nextDestroyedSeq) ==
              MarkAll(Garbage(old(marks), old(nextDestroyedSeq)), ObjectsOf(keys), Deletes(|keys|))
    {
      ghost var ids := ObjectsOf(keys);
      ghost var g := Garbage(marks, nextDestroyedSeq);
      for i := 0 to |keys|
        invariant RowsHold(streams, logical) && StreamObjectsIndexed() && Counted() && DestroyedIndexed()
        invariant objectsById == old(objectsById) - IdSet(ids[..i])
        invariant Garbage(marks, nextDestroyedSeq) == MarkAll(g, ids[..i], Deletes(i))
      {
        DropStreamObject(keys[i].objectId);
        MarkObjectDestroyed(keys[i].objectId, Delete);
        MarkAllNext(g, ids, i);
        IdSetNext(ids, i);
        assert objectsById == old(objectsById) - IdSet(ids[..i + 1]);
      }
      assert ids[..|keys|] == ids;
    }

    method DestroyBelow(id: nat, offset: nat)
      requires RowsHold(streams, logical) && StreamObjectsIndexed() && Counted() && DestroyedIndexed()
      modifies `streams, `streamObjects, `streamObjectIds, `objectsById, `storedBytes
      modifies `markDestroyed, `destroyedById, `nextDestroyedSeq, `marks
      ensures RowsHold(streams, logical) && StreamObjectsIndexed() && Counted() && DestroyedIndexed()
      ensures Destroyed(old(objectsById), ObjectsBelow(old(objectsById), id, offset), objectsById,
                        Garbage(old(marks), old(nextDestroyedSeq)), Garbage(marks, nextDestroyedSeq))
    {
      ghost var below := ObjectsBelow(objectsById, id, offset);
      var dead := set k | k in streamObjects && k.stream == id && streamObjects[k].endOffset <= offset;
      forall k | k in streamObjects ensures k in dead <==> k.objectId in below {
        assert AtKey(k) && AtObject(k.objectId);
      }
      KeysOfRows(streamObjects, streamObjectIds, objectsById, dead, below);
      ScanOrderIds(objectsById, below);
      DestroyObjects(SortKeys(dead));
    }

    method DestroyAllOf(id: nat)
      requires RowsHold(streams, logical) && StreamObjectsIndexed() && Counted() && DestroyedIndexed()
      modifies `streams, `streamObjects, `streamObjectIds, `objectsById, `storedBytes
      modifies `markDestroyed, `destroyedById, `nextDestroyedSeq, `marks
      ensures RowsHold(streams, logical) && StreamObjectsIndexed() && Counted() && DestroyedIndexed()
      ensures Destroyed(old(objectsById), ObjectsOfStream(old(objectsById), id), objectsById,
                        Garbage(old(marks), old(nextDestroyedSeq)), Garbage(marks, nextDestroyedSeq))
    {
      ghost var own := ObjectsOfStream(objectsById, id);
      var keys := set k | k in streamObjects && k.stream == id;
      forall k | k in streamObjects ensures k in keys <==> k.objectId in own {
        assert AtKey(k) && AtObject(k.objectId);
      }
      KeysOfRows(streamObjects, streamObjectIds, objectsById, keys, own);
      ScanOrderIds(objectsById, own);
      DestroyObjects(SortKeys(keys));
    }

    method ApplyTrim(id: nat, st: Stream)
      requires StreamsIndexed() && StreamObjectsIndexed() && Counted() && DestroyedIndexed() && id in streams
      modifies `streams, `logical, `openingByNode, `placedByNode, `streamsByNode, `epochs
      modifies `streamObjects, `streamObjectIds, `objectsById, `storedBytes
      modifies `markDestroyed, `destroyedById, `nextDestroyedSeq, `marks
      ensures StreamsIndexed() && StreamObjectsIndexed() && Counted() && DestroyedIndexed()
      ensures logical == old(logical)[id := st] && epochs == PruneEpochs(old(epochs), id, st.startOffset)
      ensures Destroyed(old(objectsById), ObjectsBelow(old(objectsById), id, st.startOffset), objectsById,
                        Garbage(old(marks), old(nextDestroyedSeq)), Garbage(marks, nextDestroyedSeq))
    {
      PutStream(id, st);
      DropSupersededEpochs(id, st.startOffset);
      DestroyBelow(id, st.startOffset);
    }

    method CheckTrim(n: int, id: nat, epoch: int, newStart: nat) returns (refusal: Option<MetadataError>)
      requires RowsHold(streams, logical)
      ensures refusal == TrimRefusal(View(), n, id, epoch, newStart)
    {
      if id !in streams {
        return Some(StreamNotExist(id));
      }
      var st := streams[id].stream;
      if st.epoch != epoch {
        return Some(ExpiredEpoch(id, epoch));
      }
      if !OwnerAllows(st, n) {
        return Some(StreamFenced(id, st.epoch));
      }
      if newStart < st.startOffset || newStart > st.endOffset {
        return Some(Unexpected);
      }
      return None;
    }

    method TrimStream(n: int, id: nat, epoch: int, newStart: nat) returns (r: Outcome<MetadataResult>)
      requires StreamsIndexed() && StreamObjectsIndexed() && Counted() && DestroyedIndexed()
      modifies `streams, `logical, `openingByNode, `placedByNode, `streamsByNode, `epochs
      modifies `streamObjects, `streamObjectIds, `objectsById, `storedBytes
      modifies `markDestroyed, `destroyedById, `nextDestroyedSeq, `marks
      ensures StreamsIndexed() && StreamObjectsIndexed() && Counted() && DestroyedIndexed()
      ensures Answers(r, View(), TrimStreamStep(old(View()), n, id, epoch, newStart))
    {
      var refusal := CheckTrim(n, id, epoch, newStart);
      if refusal.Some? {
        return Err(refusal.value);
      }
      ApplyTrim(id, streams[id].stream.(startOffset := newStart));
      TrimmedState(old(View()), View(), n, id, epoch, newStart);
      return Ok(Unit);
    }

    method ApplyDelete(id: nat)
      requires StreamsIndexed() && StreamObjectsIndexed() && Counted() && DestroyedIndexed()
      modifies `streams, `logical, `openingByNode, `placedByNode, `streamsByNode, `epochs, `pendingTransfers
      modifies `streamObjects, `streamObjectIds, `objectsById, `storedBytes
      modifies `markDestroyed, `destroyedById, `nextDestroyedSeq, `marks
      ensures StreamsIndexed() && StreamObjectsIndexed() && Counted() && DestroyedIndexed()
      ensures logical == old(logical) - {id} && epochs == DropEpochs(old(epochs), id)
      ensures pendingTransfers == old(pendingTransfers) - {id}
      ensures Destroyed(old(objectsById), ObjectsOfStream(old(objectsById), id), objectsById,
                        Garbage(old(marks), old(nextDestroyedSeq)), Garbage(marks, nextDestroyedSeq))
    {
      RemoveStream(id);
      pendingTransfers := pendingTransfers - {id};
      DropAllEpochs(id);
      DestroyAllOf(id);
    }

    method CheckDelete(n: int, id: nat, epoch: int) returns (refusal: Option<MetadataError>)
      requires RowsHold(streams, logical) && id in streams
      ensures refusal == DeleteRefusal(View(), n, id, epoch)
    {
      var st := streams[id].stream;
      if !OwnerAllows(st, n) {
        return Some(StreamFenced(id, st.epoch));
      }
      if !st.state.Closed? {
        return Some(StreamNotClosed(id));
      }
      if st.epoch != epoch {
        return Some(ExpiredEpoch(id, epoch));
      }
      return None;
    }

    method DeleteExisting(n: int, id: nat, epoch: int) returns (r: Outcome<MetadataResult>)
      requires StreamsIndexed() && StreamObjectsIndexed() && Counted() && DestroyedIndexed() && id in streams
      modifies `streams, `logical, `openingByNode, `placedByNode, `streamsByNode, `epochs, `pendingTransfers
      modifies `streamObjects, `streamObjectIds, `objectsById, `storedBytes
      modifies `markDestroyed, `destroyedById, `nextDestroyedSeq, `marks
      ensures StreamsIndexed() && StreamObjectsIndexed() && Counted() && DestroyedIndexed()
      ensures Answers(r, View(), DeleteStreamStep(old(View()), n, id, epoch))
    {
      var refusal := CheckDelete(n, id, epoch);
      if refusal.Some? {
        return Err(refusal.value);
      }
      ApplyDelete(id);
      DeletedState(old(View()), View(), n, id, epoch);
      return Ok(Unit);
    }

    method DeleteStream(n: int, id: nat, epoch: int) returns (r: Outcome<MetadataResult>)
      requires StreamsIndexed() && StreamObjectsIndexed() && Counted() && DestroyedIndexed()
      modifies `streams, `logical, `openingByNode, `placedByNode, `streamsByNode, `epochs, `pendingTransfers
      modifies `streamObjects, `streamObjectIds, `objectsById, `storedBytes
      modifies `markDestroyed, `destroyedById, `nextDestroyedSeq, `marks
      ensures StreamsIndexed() && StreamObjectsIndexed() && Counted() && DestroyedIndexed()
      ensures Answers(r, View(), DeleteStreamStep(old(View()), n, id, epoch))
    {
      if id in streams {
        r := DeleteExisting(n, id, epoch);
      } else {
        r := Ok(Unit);
      }
    }

    // --------------------------------------------------- object commands

    method LeaseBlock(first: nat, count: nat, deadline: int)
      requires LeasesIndexed() && forall id :: id in prepared ==> id < first
      modifies `prepared, `preparedByDeadline
      ensures LeasesIndexed() && prepared == old(prepared) + Block(first, count, deadline)
    {
      for i := 0 to count
        invariant LeasesIndexed() && prepared == old(prepared) + Block(first, i, deadline)
      {
        PutPrepared(first + i, deadline);
        BlockGrows(old(prepared), first, i, deadline);
      }
    }

    method PrepareObject(count: nat, ttlMs: int, nowMs: int) returns (r: Outcome<MetadataResult>)
      requires LeasesIndexed() && forall id :: id in prepared ==> id < nextObjectId
      modifies `prepared, `preparedByDeadline, `nextObjectId
      ensures LeasesIndexed()
      ensures Answers(r, View(), PrepareObjectStep(old(View()), count, ttlMs, nowMs))
    {
      if count == 0 {
        return Err(Unexpected);
      }
      var first := nextObjectId;
      nextObjectId := nextObjectId + count;
      LeaseBlock(first, count, nowMs + Max(ttlMs, 0));
      return Ok(Id(first));
    }

    method RemoveDue(due: set<(int, nat)>)
      requires LeasesIndexed()
      modifies `prepared, `preparedByDeadline
      ensures LeasesIndexed() && prepared == old(prepared) - set p | p in due :: p.1
    {
      var rest := due;
      ghost var gone := {};
      while rest != {}
        invariant LeasesIndexed() && rest <= due && gone == (set p | p in due - rest :: p.1)
        invariant prepared == old(prepared) - gone
        decreases rest
      {
        var p :| p in rest;
        rest := rest - {p};
        RemovePrepared(p.1);
        assert due - rest == (due - (rest + {p})) + {p};
        gone := gone + {p.1};
      }
      assert due - rest == due;
    }

    /** Reclaims the leases whose deadline has passed, found through the deadline index. */
    method ExpirePreparedObjects(nowMs: int) returns (r: Outcome<MetadataResult>)
      requires LeasesIndexed()
      modifies `prepared, `preparedByDeadline
      ensures LeasesIndexed()
      ensures Answers(r, View(), ExpireStep(old(View()), nowMs))
    {
      var due := set p | p in preparedByDeadline && p.0 <= nowMs;
      ghost var ids := set id | id in prepared && prepared[id] <= nowMs;
      forall id | id in ids ensures (prepared[id], id) in due {
        assert AtPair((prepared[id], id));
      }
      forall p | p in due ensures p.1 in ids && p == (prepared[p.1], p.1) {
        assert AtPair(p);
      }
      DueEntries(prepared, due, ids);
      assert ids == set p | p in due :: p.1;
      RemoveDue(due);
      return Ok(Count(|due|));
    }

    method CleanDestroyedObjects(ids: seq<nat>) returns (r: Outcome<MetadataResult>)
      requires DestroyedIndexed()
      modifies `markDestroyed, `destroyedById, `marks
      ensures DestroyedIndexed()
      ensures Answers(r, View(), CleanStep(old(View()), ids))
    {
      for i := 0 to |ids|
        invariant DestroyedIndexed() && marks == old(marks) - IdSet(ids[..i])
      {
        RemoveDestroyed(ids[i]);
        IdSetNext(ids, i);
      }
      assert ids[..|ids|] == ids;
      return Ok(Unit);
    }

    /** Moves a stream's end to where the range ends, or, for a compaction, checks the range lies inside. */
    method AdvanceEndOffset(id: nat, start: nat, end: nat, compact: bool) returns (refusal: Option<MetadataError>)
      requires StreamsIndexed() && Counted()
      modifies `streams, `logical, `openingByNode, `placedByNode, `streamsByNode
      ensures StreamsIndexed() && Counted()
      ensures Advanced(Advance(old(logical), id, start, end, compact), refusal, logical)
    {
      if id !in streams {
        return Some(StreamNotExist(id));
      }
      var st := streams[id].stream;
      if compact {
        if st.endOffset < end || st.startOffset > start {
          return Some(Unexpected);
        }
        return None;
      }
      if st.endOffset != start {
        return Some(Unexpected);
      }
      PutStream(id, st.(endOffset := end));
      return None;
    }

    method AdvanceSlices(xs: seq<Slice>, compact: bool) returns (refusal: Option<MetadataError>)
      requires StreamsIndexed() && Counted()
      modifies `streams, `logical, `openingByNode, `placedByNode, `streamsByNode
      ensures StreamsIndexed() && Counted()
      ensures Advanced(AdvanceAll(old(logical), xs, compact), refusal, logical)
    {
      for i := 0 to |xs|
        invariant StreamsIndexed() && Counted()
        invariant AdvanceAll(old(logical), xs[..i], compact) == Ok(logical)
      {
        assert xs[..i + 1][..i] == xs[..i];
        refusal := AdvanceEndOffset(xs[i].streamId, xs[i].startOffset, xs[i].endOffset, compact);
        if refusal.Some? {
          AdvanceErrorStays(old(logical), xs, compact, i + 1);
          return;
        }
      }
      assert xs[..|xs|] == xs;
      refusal := None;
    }

    predicate IdFree(id: nat, key: Option<OffsetKey>)
      requires StreamObjectsIndexed()
      reads `streamSetObjects, `streamObjects, `streamObjectIds, `objectsById
      ensures IdFree(id, key) == ObjectIdFree(View().objects, id, key)
    {
      assert AtObject(id);
      id !in streamSetObjects && (id in streamObjectIds ==> key == Some(streamObjectIds[id]))
    }

    /** Ends the lease, moves the stream's end and stores the row. */
    method WriteNewObject(x: NewStreamObject, compact: bool, t: Stamp) returns (refusal: Option<MetadataError>)
      requires StreamsIndexed() && Counted() && LeasesIndexed() && StreamObjectsIndexed()
      modifies `streams, `logical, `openingByNode, `placedByNode, `streamsByNode, `prepared, `preparedByDeadline
      modifies `streamObjects, `streamObjectIds, `objectsById, `storedBytes
      ensures StreamsIndexed() && Counted() && LeasesIndexed() && StreamObjectsIndexed()
      ensures prepared == old(prepared) - {x.objectId}
      ensures Advanced(Advance(old(logical), x.streamId, x.startOffset, x.endOffset, compact), refusal, logical)
      ensures refusal.None? ==> objectsById == old(objectsById)[x.objectId := RowOf(x, t)]
    {
      RemovePrepared(x.objectId);
      refusal := AdvanceEndOffset(x.streamId, x.startOffset, x.endOffset, compact);
      if refusal.None? {
        StoreStreamObject(x.objectId, RowOf(x, t));
      }
    }

    method CommitNewObject(ghost s: State, x: NewStreamObject, compact: bool, t: Stamp) returns (refusal: Option<MetadataError>)
      requires StreamsIndexed() && Counted() && LeasesIndexed() && StreamObjectsIndexed() && Mirrors(s, logical, prepared, streamSetObjects, objectsById)
      modifies `streams, `logical, `openingByNode, `placedByNode, `streamsByNode, `prepared, `preparedByDeadline
      modifies `streamObjects, `streamObjectIds, `objectsById, `storedBytes
      ensures StreamsIndexed() && Counted() && LeasesIndexed() && StreamObjectsIndexed()
      ensures Agreed(CommitStreamObject(s, x, compact, t), refusal, logical, prepared, streamSetObjects, objectsById)
    {
      if !IdFree(x.objectId, Some(OffsetKey(x.streamId, x.startOffset, x.objectId))) {
        return Some(Unexpected);
      }
      refusal := WriteNewObject(x, compact, t);
      NewObjectWritten(s, x, compact, t, refusal, logical, prepared, objectsById);
    }

    method CommitNewObjects(ghost s: State, xs: seq<NewStreamObject>, compact: bool, t: Stamp) returns (refusal: Option<MetadataError>)
      requires StreamsIndexed() && Counted() && LeasesIndexed() && StreamObjectsIndexed() && Mirrors(s, logical, prepared, streamSetObjects, objectsById)
      modifies `streams, `logical, `openingByNode, `placedByNode, `streamsByNode, `prepared, `preparedByDeadline
      modifies `streamObjects, `streamObjectIds, `objectsById, `storedBytes
      ensures StreamsIndexed() && Counted() && LeasesIndexed() && StreamObjectsIndexed()
      ensures Agreed(CommitStreamObjects(s, xs, compact, t), refusal, logical, prepared, streamSetObjects, objectsById)
    {
      ghost var u := s;
      for i := 0 to |xs|
        invariant StreamsIndexed() && Counted() && LeasesIndexed() && StreamObjectsIndexed()
        invariant CommitStreamObjects(s, xs[..i], compact, t) == Ok(u) && Mirrors(u, logical, prepared, streamSetObjects, objectsById)
      {
        assert xs[..i + 1][..i] == xs[..i];
        refusal := CommitNewObject(u, xs[i], compact, t);
        if refusal.Some? {
          CommitErrorStays(s, xs, compact, t, i + 1);
          return;
        }
        u := CommitStreamObject(u, xs[i], compact, t).value;
      }
      assert xs[..|xs|] == xs;
      refusal := None;
    }

    method DestroySets(ids: seq<nat>)
      requires RowsHold(streams, logical) && SetsIndexed() && Counted() && DestroyedIndexed()
      modifies `streams, `streamSetObjects, `ssoRanges, `ssoByNode, `storedBytes
      modifies `markDestroyed, `destroyedById, `nextDestroyedSeq, `marks
      ensures RowsHold(streams, logical) && SetsIndexed() && Counted() && DestroyedIndexed()
      ensures streamSetObjects == old(streamSetObjects) - IdSet(ids)
      ensures Garbage(marks, nextDestroyedSeq) == MarkAll(Garbage(old(marks), old(nextDestroyedSeq)), ids, Deletes(|ids|))
    {
      ghost var g := Garbage(marks, nextDestroyedSeq);
      for i := 0 to |ids|
        invariant RowsHold(streams, logical) && SetsIndexed() && Counted() && DestroyedIndexed()
        invariant streamSetObjects == old(streamSetObjects) - IdSet(ids[..i])
        invariant Garbage(marks, nextDestroyedSeq) == MarkAll(g, ids[..i], Deletes(i))
      {
        DropSetObject(ids[i]);
        MarkObjectDestroyed(ids[i], Delete);
        MarkAllNext(g, ids, i);
        IdSetNext(ids, i);
        assert streamSetObjects == old(streamSetObjects) - IdSet(ids[..i + 1]);
      }
      assert ids[..|ids|] == ids;
    }

    method WriteSetObject(n: int, r: CommitRequest, t: Stamp) returns (refusal: Option<MetadataError>)
      requires StreamsIndexed() && Counted() && LeasesIndexed() && SetsIndexed()
      modifies `streams, `logical, `openingByNode, `placedByNode, `streamsByNode, `prepared, `preparedByDeadline
      modifies `streamSetObjects, `ssoRanges, `ssoByNode, `storedBytes
      ensures StreamsIndexed() && Counted() && LeasesIndexed() && SetsIndexed()
      ensures prepared == old(prepared) - {r.objectId}
      ensures Advanced(AdvanceAll(old(logical), r.slices, r.compacted != []), refusal, logical)
      ensures refusal.None? ==> streamSetObjects == old(streamSetObjects)[r.objectId := SetRowOf(n, r, t)]
    {
      RemovePrepared(r.objectId);
      refusal := AdvanceSlices(r.slices, r.compacted != []);
      if refusal.None? {
        StoreSetObject(r.objectId, SetRowOf(n, r, t));
      }
    }

    method CommitSet(ghost s: State, n: int, r: CommitRequest, t: Stamp) returns (refusal: Option<MetadataError>)
      requires StreamsIndexed() && Counted() && LeasesIndexed() && SetsIndexed() && StreamObjectsIndexed()
      requires Mirrors(s, logical, prepared, streamSetObjects, objectsById)
      modifies `streams, `logical, `openingByNode, `placedByNode, `streamsByNode, `prepared, `preparedByDeadline
      modifies `streamSetObjects, `ssoRanges, `ssoByNode, `storedBytes
      ensures StreamsIndexed() && Counted() && LeasesIndexed() && SetsIndexed()
      ensures Agreed(CommitSetObject(s, n, r, t), refusal, logical, prepared, streamSetObjects, objectsById)
    {
      if r.objectId == NOOP_OBJECT_ID {
        return None;
      }
      if !IdFree(r.objectId, None) {
        return Some(Unexpected);
      }
      refusal := WriteSetObject(n, r, t);
      SetObjectWritten(s, n, r, t, refusal, logical, prepared, streamSetObjects);
    }

    predicate CommitIsRedundant(r: CommitRequest)
      requires StreamObjectsIndexed()
      reads `streamSetObjects, `streamObjects, `streamObjectIds, `objectsById
    {
      if r.objectId != NOOP_OBJECT_ID then r.objectId in streamSetObjects
      else r.streamObjects != [] &&
           forall i :: 0 <= i < |r.streamObjects| ==>
             r.streamObjects[i].objectId in streamObjectIds &&
             streamObjectIds[r.streamObjects[i].objectId].stream == r.streamObjects[i].streamId
    }

    lemma RedundancyMatches(r: CommitRequest)
      requires StreamObjectsIndexed()
      ensures CommitIsRedundant(r) == RedundantCommit(View().objects, r)
    {
      forall i | 0 <= i < |r.streamObjects|
        ensures (r.streamObjects[i].objectId in streamObjectIds && streamObjectIds[r.streamObjects[i].objectId].stream == r.streamObjects[i].streamId)
                <==> StreamObjectCommitted(View().objects, r.streamObjects[i].streamId, r.streamObjects[i].objectId)
      {
        assert AtObject(r.streamObjects[i].objectId);
      }
    }

    method WriteCommit(ghost s: State, n: int, r: CommitRequest, t: Stamp) returns (refusal: Option<MetadataError>)
      requires StreamsIndexed() && Counted() && LeasesIndexed() && SetsIndexed() && StreamObjectsIndexed() && Mirrors(s, logical, prepared, streamSetObjects, objectsById)
      modifies `streams, `logical, `openingByNode, `placedByNode, `streamsByNode, `prepared, `preparedByDeadline
      modifies `streamSetObjects, `ssoRanges, `ssoByNode, `storedBytes, `streamObjects, `streamObjectIds, `objectsById
      ensures StreamsIndexed() && Counted() && LeasesIndexed() && SetsIndexed() && StreamObjectsIndexed()
      ensures Agreed(ObjectsWritten(s, n, r, t), refusal, logical, prepared, streamSetObjects, objectsById)
    {
      refusal := CommitSet(s, n, r, t);
      if refusal.None? {
        refusal := CommitNewObjects(CommitSetObject(s, n, r, t).value, r.streamObjects, r.compacted != [], t);
      }
    }

    method ApplyCommit(ghost s: State, n: int, r: CommitRequest, t: Stamp) returns (refusal: Option<MetadataError>)
      requires StreamsIndexed() && Counted() && LeasesIndexed() && SetsIndexed() && StreamObjectsIndexed() && DestroyedIndexed()
      requires Mirrors(s, logical, prepared, streamSetObjects, objectsById) && s.objects.garbage == Garbage(marks, nextDestroyedSeq)
      modifies `streams, `logical, `openingByNode, `placedByNode, `streamsByNode, `prepared, `preparedByDeadline
      modifies `streamSetObjects, `ssoRanges, `ssoByNode, `storedBytes, `streamObjects, `streamObjectIds, `objectsById
      modifies `markDestroyed, `destroyedById, `nextDestroyedSeq, `marks
      ensures StreamsIndexed() && Counted() && LeasesIndexed() && SetsIndexed() && StreamObjectsIndexed() && DestroyedIndexed()
      ensures Garbage(marks, nextDestroyedSeq) == MarkAll(s.objects.garbage, r.compacted, Deletes(|r.compacted|))
      ensures Agreed(CommitWritten(s, n, r, t), refusal, logical, prepared, streamSetObjects, objectsById)
    {
      DestroySets(r.compacted);
      refusal := WriteCommit(s.(objects := DestroySetObjects(s.objects, r.compacted)), n, r, t);
    }

    method CheckCommit(r: CommitRequest) returns (refusal: Option<MetadataError>)
      requires StreamObjectsIndexed()
      ensures refusal == if RedundantCommit(View().objects, r) then Some(Redundant)
                         else if !SourcesExist(View().objects, r) then Some(Unexpected) else None
    {
      RedundancyMatches(r);
      if CommitIsRedundant(r) {
        return Some(Redundant);
      }
      if exists i :: 0 <= i < |r.compacted| && r.compacted[i] !in streamSetObjects {
        return Some(Unexpected);
      }
      return None;
    }

    method CommitStreamSetObject(n: int, r: CommitRequest, nowMs: int) returns (res: Outcome<MetadataResult>)
      requires StreamsIndexed() && Counted() && LeasesIndexed() && SetsIndexed() && StreamObjectsIndexed() && DestroyedIndexed()
      modifies `streams, `logical, `openingByNode, `placedByNode, `streamsByNode, `prepared, `preparedByDeadline
      modifies `streamSetObjects, `ssoRanges, `ssoByNode, `storedBytes, `streamObjects, `streamObjectIds, `objectsById
      modifies `markDestroyed, `destroyedById, `nextDestroyedSeq, `marks
      ensures StreamsIndexed() && Counted() && LeasesIndexed() && SetsIndexed() && StreamObjectsIndexed() && DestroyedIndexed()
      ensures Answers(res, View(), CommitStep(old(View()), n, r, nowMs))
    {
      var refusal := CheckCommit(r);
      if refusal.Some? {
        return Err(refusal.value);
      }
      ghost var v := View();
      var t := Stamp(nowMs, OldestData(streamSetObjects, r.compacted, nowMs), LatestWrite(streamSetObjects, r.compacted, nowMs));
      refusal := ApplyCommit(v, n, r, t);
      CommittedState(v, View(), n, r, nowMs, refusal);
      return if refusal.Some? then Err(refusal.value) else Ok(Unit);
    }

    method CheckCompact(r: CompactRequest) returns (refusal: Option<MetadataError>)
      requires RowsHold(streams, logical) && StreamObjectsIndexed()
      ensures refusal == CompactCheck(View(), r)
    {
      assert AtObject(r.objectId);
      if r.objectId != NOOP_OBJECT_ID && r.objectId in streamObjectIds && streamObjectIds[r.objectId].stream == r.streamId {
        return Some(Redundant);
      }
      if r.streamId !in streams {
        return Some(StreamNotExist(r.streamId));
      }
      var st := streams[r.streamId].stream;
      if st.epoch != AsI64(r.streamEpoch) {
        return Some(ExpiredEpoch(r.streamId, AsI64(r.streamEpoch)));
      }
      if st.endOffset < r.endOffset || st.startOffset > r.startOffset {
        return Some(Unexpected);
      }
      if r.objectId != NOOP_OBJECT_ID && !IdFree(r.objectId, Some(OffsetKey(r.streamId, r.startOffset, r.objectId))) {
        return Some(Unexpected);
      }
      return None;
    }

    method LatestSourceWrite(ids: seq<nat>) returns (latest: Option<int>)
      requires StreamObjectsIndexed()
      ensures latest == SourceWrite(objectsById, ids)
    {
      latest := None;
      for i := 0 to |ids|
        invariant latest == SourceWrite(objectsById, ids[..i])
      {
        assert ids[..i + 1][..i] == ids[..i];
        assert AtObject(ids[i]);
        if ids[i] in streamObjectIds {
          var written := streamObjects[streamObjectIds[ids[i]]].lastWriteMs;
          latest := Some(if latest.Some? then Max(latest.value, written) else written);
        }
      }
      assert ids[..|ids|] == ids;
    }

    /** Drops those of the sources that are objects of the stream. */
    method DropSources(streamId: nat, ids: seq<nat>)
      requires RowsHold(streams, logical) && StreamObjectsIndexed() && Counted()
      modifies `streams, `streamObjects, `streamObjectIds, `objectsById, `storedBytes
      ensures RowsHold(streams, logical) && StreamObjectsIndexed() && Counted()
      ensures objectsById == old(objectsById) - SourcesIn(old(objectsById), streamId, ids)
    {
      ghost var before := objectsById;
      for i := 0 to |ids|
        invariant RowsHold(streams, logical) && StreamObjectsIndexed() && Counted()
        invariant objectsById == before - SourcesIn(before, streamId, ids[..i])
      {
        assert AtObject(ids[i]);
        SourcesInNext(before, streamId, ids, i);
        if ids[i] in streamObjectIds && streamObjectIds[ids[i]].stream == streamId {
          DropStreamObject(ids[i]);
        }
      }
      assert ids[..|ids|] == ids;
    }

    /** Queues the sources, or refuses lists of different lengths. */
    method MarkSources(ids: seq<nat>, ops: seq<CompactOperation>) returns (refusal: Option<MetadataError>)
      requires DestroyedIndexed()
      modifies `markDestroyed, `destroyedById, `nextDestroyedSeq, `marks
      ensures DestroyedIndexed()
      ensures Marked(Garbage(old(marks), old(nextDestroyedSeq)), ids, ops, refusal, Garbage(marks, nextDestroyedSeq))
    {
      if ids != [] && ops != [] && |ops| != |ids| {
        return Some(Unexpected);
      }
      ghost var g := Garbage(marks, nextDestroyedSeq);
      var each := SourceOperations(ids, ops);
      for i := 0 to |ids|
        invariant DestroyedIndexed() && Garbage(marks, nextDestroyedSeq) == MarkAll(g, ids[..i], each[..i])
      {
        MarkObjectDestroyed(ids[i], each[i]);
        assert ids[..i + 1][..i] == ids[..i] && each[..i + 1][..i] == each[..i];
      }
      assert ids[..|ids|] == ids && each[..|ids|] == each;
      return None;
    }

    /** Ends the lease, stores the replacement and drops the sources. */
    method WriteCompacted(r: CompactRequest, nowMs: int)
      requires RowsHold(streams, logical) && LeasesIndexed() && StreamObjectsIndexed() && Counted()
      modifies `prepared, `preparedByDeadline, `streams, `streamObjects, `streamObjectIds, `objectsById, `storedBytes
      ensures RowsHold(streams, logical) && LeasesIndexed() && StreamObjectsIndexed() && Counted()
      ensures prepared == old(prepared) - {r.objectId}
      ensures objectsById == CompactedObjects(old(objectsById), r, nowMs)
    {
      RemovePrepared(r.objectId);
      if r.objectId != NOOP_OBJECT_ID {
        var latest := LatestSourceWrite(r.sources);
        StoreStreamObject(r.objectId,
                          StreamObject(r.streamId, r.startOffset, r.endOffset, r.objectSize, r.attributes, nowMs, nowMs,
                                       if latest.Some? then latest.value else nowMs));
      }
      DropSources(r.streamId, r.sources);
    }

    method WriteAndMark(r: CompactRequest, nowMs: int) returns (refusal: Option<MetadataError>)
      requires RowsHold(streams, logical) && LeasesIndexed() && StreamObjectsIndexed() && Counted() && DestroyedIndexed()
      modifies `prepared, `preparedByDeadline, `streams, `streamObjects, `streamObjectIds, `objectsById, `storedBytes
      modifies `markDestroyed, `destroyedById, `nextDestroyedSeq, `marks
      ensures RowsHold(streams, logical) && LeasesIndexed() && StreamObjectsIndexed() && Counted() && DestroyedIndexed()
      ensures prepared == old(prepared) - {r.objectId}
      ensures objectsById == CompactedObjects(old(objectsById), r, nowMs)
      ensures Marked(Garbage(old(marks), old(nextDestroyedSeq)), r.sources, r.operations, refusal, Garbage(marks, nextDestroyedSeq))
    {
      WriteCompacted(r, nowMs);
      refusal := MarkSources(r.sources, r.operations);
    }

    method ApplyCompact(r: CompactRequest, nowMs: int) returns (refusal: Option<MetadataError>)
      requires RowsHold(streams, logical) && LeasesIndexed() && StreamObjectsIndexed() && Counted() && DestroyedIndexed()
      modifies `prepared, `preparedByDeadline, `streams, `streamObjects, `streamObjectIds, `objectsById, `storedBytes
      modifies `markDestroyed, `destroyedById, `nextDestroyedSeq, `marks
      ensures RowsHold(streams, logical) && LeasesIndexed() && StreamObjectsIndexed() && Counted() && DestroyedIndexed()
      ensures CompactWrote(old(View()), View(), r, nowMs, refusal)
    {
      refusal := WriteAndMark(r, nowMs);
    }

    method CompactStreamObject(r: CompactRequest, nowMs: int) returns (res: Outcome<MetadataResult>)
      requires StreamsIndexed() && LeasesIndexed() && StreamObjectsIndexed() && Counted() && DestroyedIndexed()
      modifies `prepared, `preparedByDeadline, `streams, `streamObjects, `streamObjectIds, `objectsById, `storedBytes
      modifies `markDestroyed, `destroyedById, `nextDestroyedSeq, `marks
      ensures StreamsIndexed() && LeasesIndexed() && StreamObjectsIndexed() && Counted() && DestroyedIndexed()
      ensures Answers(res, View(), CompactStep(old(View()), r, nowMs))
    {
      var refusal := CheckCompact(r);
      if refusal.Some? {
        return Err(refusal.value);
      }
      ghost var v := View();
      refusal := ApplyCompact(r, nowMs);
      CompactedState(v, View(), r, nowMs, refusal);
      return if refusal.Some? then Err(refusal.value) else Ok(Unit);
    }

    // -------------------------------------------------------- kv commands

    method PutKv(key: Str, value: Str) returns (r: Outcome<MetadataResult>)
      requires KvCounted()
      modifies `kv, `kvBytes
      ensures KvCounted() && Answers(r, View(), PutKvStep(old(View()), key, value))
    {
      StoreKv(key, value);
      r := Ok(Value(Some(value)));
    }

    method PutKvIfAbsent(key: Str, value: Str) returns (r: Outcome<MetadataResult>)
      requires KvCounted()
      modifies `kv, `kvBytes
      ensures KvCounted() && Answers(r, View(), PutKvIfAbsentStep(old(View()), key, value))
    {
      if key in kv {
        return Ok(Value(Some(kv[key])));
      }
      StoreKv(key, value);
      r := Ok(Value(Some(value)));
    }

    method DeleteKv(key: Str) returns (r: Outcome<MetadataResult>)
      requires KvCounted()
      modifies `kv, `kvBytes
      ensures KvCounted() && Answers(r, View(), DeleteKvStep(old(View()), key))
    {
      var removed := DropKv(key);
      r := Ok(Value(removed));
    }

    method DeleteKvIfMatches(key: Str, expected: Str) returns (r: Outcome<MetadataResult>)
      requires KvCounted()
      modifies `kv, `kvBytes
      ensures KvCounted() && Answers(r, View(), DeleteKvIfMatchesStep(old(View()), key, expected))
    {
      if key in kv && kv[key] == expected {
        r := DeleteKv(key);
      } else {
        r := Err(Redundant);
      }
    }

    method PutKvIfMatches(key: Str, expected: Str, value: Str) returns (r: Outcome<MetadataResult>)
      requires KvCounted()
      modifies `kv, `kvBytes
      ensures KvCounted() && Answers(r, View(), PutKvIfMatchesStep(old(View()), key, expected, value))
    {
      if key in kv && kv[key] == expected {
        r := PutKv(key, value);
      } else {
        r := Err(Redundant);
      }
    }

    method AllocateProducerIds(count: nat) returns (r: Outcome<MetadataResult>)
      modifies `nextProducerId
      ensures Answers(r, View(), AllocateProducerIdsStep(old(View()), count))
    {
      if count == 0 || count > MAX_ALLOCATE_PRODUCER_IDS {
        return Err(Unexpected);
      }
      var first := nextProducerId;
      nextProducerId := nextProducerId + count;
      return Ok(Id(first));
    }

    // ------------------------------------------------------------ dispatch

    method ApplyNodeCommand(c: Command) returns (r: Outcome<MetadataResult>)
      requires IsNodeCommand(c)
      modifies `nodes
      ensures Answers(r, View(), NodeTransition(old(View()), c))
    {
      match c {
        case SetNodeSlots(_, n, slots) => r := SetNodeSlots(n, slots);
        case Heartbeat(p) => r := Heartbeat(p.nodeId);
        case FenceNode(p, n, epoch, heartbeats) => r := FenceNode(p, n, epoch, heartbeats);
      }
    }

    method ApplyKvCommand(c: Command) returns (r: Outcome<MetadataResult>)
      requires IsKvCommand(c) && KvCounted()
      modifies `kv, `kvBytes
      ensures KvCounted() && Answers(r, View(), KvTransition(old(View()), c))
    {
      match c {
        case PutKv(_, key, value) => r := PutKv(key, value);
        case PutKvIfAbsent(_, key, value) => r := PutKvIfAbsent(key, value);
        case DeleteKv(_, key) => r := DeleteKv(key);
        case DeleteKvIfMatches(_, key, expected) => r := DeleteKvIfMatches(key, expected);
        case PutKvIfMatches(_, key, expected, value) => r := PutKvIfMatches(key, expected, value);
      }
    }

    method ApplyOwnershipCommand(c: Command) returns (r: Outcome<MetadataResult>)
      requires IsStreamCommand(c) && !c.TrimStream? && !c.DeleteStream?
      requires StreamsIndexed() && Counted() && NothingStoredFrom(nextStreamId)
      modifies `streams, `logical, `openingByNode, `placedByNode, `streamsByNode, `nextStreamId, `epochs, `pendingTransfers
      ensures StreamsIndexed() && Counted()
      ensures Answers(r, View(), StreamTransition(old(View()), c))
    {
      match c {
        case PlaceStream(_, id, requested) => r := PlaceStream(id, requested);
        case CreateStream(_) => r := CreateStream();
        case CreateStreams(_, count) => r := CreateStreams(count);
        case OpenStream(p, id, epoch) => r := OpenStream(p.nodeId, id, epoch);
        case CloseStream(p, id, epoch) => r := CloseStream(p.nodeId, id, epoch);
        case TransferStream(_, id, fromNode, toNode) => r := TransferStream(id, fromNode, toNode);
        case CompleteTransfer(_, id, epoch) => r := CompleteTransfer(id, epoch);
      }
    }

    method ApplyTrimStream(n: int, id: nat, epoch: int, newStart: nat) returns (r: Outcome<MetadataResult>)
      requires Indexed()
      modifies this
      ensures Indexed()
      ensures Answers(r, View(), TrimStreamStep(old(View()), n, id, epoch, newStart))
    {
      r := TrimStream(n, id, epoch, newStart);
    }

    method ApplyDeleteStream(n: int, id: nat, epoch: int) returns (r: Outcome<MetadataResult>)
      requires Indexed()
      modifies this
      ensures Indexed()
      ensures Answers(r, View(), DeleteStreamStep(old(View()), n, id, epoch))
    {
      r := DeleteStream(n, id, epoch);
    }

    method ApplyOwnership(c: Command) returns (r: Outcome<MetadataResult>)
      requires IsStreamCommand(c) && !c.TrimStream? && !c.DeleteStream? && Valid()
      modifies this
      ensures Indexed()
      ensures Answers(r, View(), StreamTransition(old(View()), c))
    {
      NothingStoredYet(View());
      r := ApplyOwnershipCommand(c);
    }

    method ApplyStreamCommand(c: Command) returns (r: Outcome<MetadataResult>)
      requires IsStreamCommand(c) && Valid()
      modifies this
      ensures Indexed()
      ensures Answers(r, View(), StreamTransition(old(View()), c))
    {
      if c.TrimStream? {
        r := ApplyTrimStream(c.proposer.nodeId, c.streamId, c.epoch, c.newStartOffset);
      } else if c.DeleteStream? {
        r := ApplyDeleteStream(c.proposer.nodeId, c.streamId, c.epoch);
      } else {
        r := ApplyOwnership(c);
      }
    }

    method ApplyPrepare(count: nat, ttlMs: int, nowMs: int) returns (r: Outcome<MetadataResult>)
      requires Valid()
      modifies this
      ensures Indexed()
      ensures Answers(r, View(), PrepareObjectStep(old(View()), count, ttlMs, nowMs))
    {
      r := PrepareObject(count, ttlMs, nowMs);
    }

    method ApplyExpire(nowMs: int) returns (r: Outcome<MetadataResult>)
      requires Indexed()
      modifies this
      ensures Indexed()
      ensures Answers(r, View(), ExpireStep(old(View()), nowMs))
    {
      r := ExpirePreparedObjects(nowMs);
    }

    method ApplyClean(ids: seq<nat>) returns (r: Outcome<MetadataResult>)
      requires Indexed()
      modifies this
      ensures Indexed()
      ensures Answers(r, View(), CleanStep(old(View()), ids))
    {
      r := CleanDestroyedObjects(ids);
    }

    method ApplyCommitCommand(n: int, request: CommitRequest, nowMs: int) returns (r: Outcome<MetadataResult>)
      requires Indexed()
      modifies this
      ensures Indexed()
      ensures Answers(r, View(), CommitStep(old(View()), n, request, nowMs))
    {
      r := CommitStreamSetObject(n, request, nowMs);
    }

    method ApplyCompactCommand(request: CompactRequest, nowMs: int) returns (r: Outcome<MetadataResult>)
      requires Indexed()
      modifies this
      ensures Indexed()
      ensures Answers(r, View(), CompactStep(old(View()), request, nowMs))
    {
      r := CompactStreamObject(request, nowMs);
    }

    method ApplyObjects(c: Command) returns (r: Outcome<MetadataResult>)
      requires IsObjectCommand(c) && Valid()
      modifies this
      ensures Indexed()
      ensures Answers(r, View(), ObjectTransition(old(View()), c))
    {
      if c.CommitStreamSetObject? {
        r := ApplyCommitCommand(c.proposer.nodeId, c.commit, c.nowMs);
      } else if c.CompactStreamObject? {
        r := ApplyCompactCommand(c.compact, c.nowMs);
      } else if c.PrepareObject? {
        r := ApplyPrepare(c.count, c.ttlMs, c.nowMs);
      } else if c.ExpirePreparedObjects? {
        r := ApplyExpire(c.nowMs);
      } else {
        r := ApplyClean(c.objectIds);
      }
    }

    method ApplyKv(c: Command) returns (r: Outcome<MetadataResult>)
      requires IsKvCommand(c) && Indexed()
      modifies `kv, `kvBytes
      ensures Indexed()
      ensures Answers(r, View(), KvTransition(old(View()), c))
    {
      r := ApplyKvCommand(c);
    }

    method ApplyOtherCommand(c: Command) returns (r: Outcome<MetadataResult>)
      requires !IsStreamCommand(c) && !IsObjectCommand(c) && !c.RegisterNode? && Indexed()
      modifies `nodes, `kv, `kvBytes, `nextProducerId
      ensures Indexed()
      ensures Answers(r, View(), Transition(old(View()), c))
    {
      if IsNodeCommand(c) {
        r := ApplyNodeCommand(c);
      } else if IsKvCommand(c) {
        r := ApplyKv(c);
      } else {
        r := AllocateProducerIds(c.count);
      }
    }

    /** A live proposer's command, dispatched; on an error the tables may be left part-written. */
    method ApplyLive(c: Command) returns (r: Outcome<MetadataResult>)
      requires Valid() && !c.RegisterNode?
      modifies this
      ensures Indexed()
      ensures Answers(r, View(), Transition(old(View()), c))
    {
      if IsStreamCommand(c) {
        r := ApplyStreamCommand(c);
      } else if IsObjectCommand(c) {
        r := ApplyObjects(c);
      } else {
        r := ApplyOtherCommand(c);
      }
    }

    method ApplyInner(c: Command) returns (r: Outcome<MetadataResult>)
      requires Valid()
      modifies this
      ensures Indexed()
      ensures Answers(r, View(), Step(old(View()), c))
    {
      if c.RegisterNode? {
        var done := RegisterNode(c.nodeId, c.nodeEpoch, c.httpAddress, c.slots, c.protocolAddresses, c.wal);
        return Ok(done);
      }
      if !(NodeIsLive(c.proposer.nodeId) && nodes[c.proposer.nodeId].epoch == c.proposer.nodeEpoch) {
        return Err(NodeEpochMismatch(c.proposer.nodeId));
      }
      r := ApplyLive(c);
    }

    constructor CopyOf(from: MetadataState)
      requires from.Valid()
      ensures Valid() && View() == from.View()
    {
      nextStreamId, nextProducerId, nextObjectId := from.nextStreamId, from.nextProducerId, from.nextObjectId;
      nextDestroyedSeq, kvBytes, storedBytes := from.nextDestroyedSeq, from.kvBytes, from.storedBytes;
      streams, nodes, streamsByNode := from.streams, from.nodes, from.streamsByNode;
      pendingTransfers, epochs := from.pendingTransfers, from.epochs;
      openingByNode, placedByNode := from.openingByNode, from.placedByNode;
      preparedByDeadline, ssoByNode := from.preparedByDeadline, from.ssoByNode;
      prepared, streamSetObjects, ssoRanges := from.prepared, from.streamSetObjects, from.ssoRanges;
      streamObjects, streamObjectIds := from.streamObjects, from.streamObjectIds;
      markDestroyed, destroyedById, kv := from.markDestroyed, from.destroyedById, from.kv;
      logical, objectsById, marks := from.logical, from.objectsById, from.marks;
    }
  }

  /** A replica: it applies log entries to the state it holds. */
  class Replica {
    var state: MetadataState

    constructor ()
      ensures state.Valid() && state.View() == Empty
    {
      state := new MetadataState();
    }

    /** One log entry: all of the command takes effect, or none of it does. */
    method Apply(c: Command) returns (r: Outcome<MetadataResult>)
      requires state.Valid()
      modifies this
      ensures state.Valid() && state.View() == Metadata.Apply(old(state.View()), c)
      ensures r == Reply(Step(old(state.View()), c))
      ensures r.Err? ==> state == old(state)
    {
      ghost var v := state.View();
      var next := new MetadataState.CopyOf(state);
      r := next.ApplyInner(c);
      if r.Ok? {
        SameIsEqual(next.View(), Metadata.Apply(v, c));
        StepRefers(v, c);
        state := next;
      }
    }

    /** Replaying a log from any valid state. */
    method Replay(log: seq<Command>)
      requires state.Valid()
      modifies this
      ensures state.Valid() && state.View() == Run(old(state.View()), log)
    {
      ghost var start := state.View();
      for i := 0 to |log|
        invariant state.Valid() && state.View() == Run(start, log[..i])
      {
        RunNext(start, log, i);
        var _ := Apply(log[i]);
      }
      assert log[..|log|] == log;
    }
  }

  /** No object holds bytes of a stream id that was never handed out. */
  lemma NothingStoredYet(s: State)
    requires Referential(s)
    ensures forall id {:trigger AtStream(id)} :: AtStream(id) && s.nextStreamId <= id ==>
              StreamBytes(s.objects.setObjects, s.objects.streamObjects, id) == 0
  {
    forall id | AtStream(id) && s.nextStreamId <= id ensures StreamBytes(s.objects.setObjects, s.objects.streamObjects, id) == 0 {
      NewStreamHasNoBytes(s, id);
    }
  }

  /** The two states agree table by table. */
  ghost predicate Same(a: State, b: State) {
    && a.nextStreamId == b.nextStreamId && a.streams == b.streams && a.nodes == b.nodes
    && a.transfers == b.transfers && a.epochs == b.epochs && a.nextProducerId == b.nextProducerId
    && a.objects.nextObjectId == b.objects.nextObjectId && a.objects.prepared == b.objects.prepared
    && a.objects.setObjects == b.objects.setObjects && a.objects.streamObjects == b.objects.streamObjects
    && a.objects.garbage.marks == b.objects.garbage.marks && a.objects.garbage.nextSeq == b.objects.garbage.nextSeq
    && a.kv == b.kv
  }

  lemma SameIsEqual(a: State, b: State)
    requires Same(a, b)
    ensures a == b
  {
    assert a.objects.garbage == b.objects.garbage;
    assert a.objects == b.objects;
  }

  /** The method replied as the specification does and, unless that is an error, reached its state. */
  ghost predicate Answers(r: Outcome<MetadataResult>, after: State, spec: StepResult) {
    match spec
    case Ok(a) => r == Ok(a.result) && Same(after, a.state)
    case Err(e) => r == Err(e)
  }

  /** Some stream objects left the table and joined the queue, in scan order. */
  ghost predicate Destroyed(before: map<nat, StreamObject>, ids: set<nat>, after: map<nat, StreamObject>, g: Garbage, h: Garbage) {
    && after == before - ids
    && var order := InScanOrder(before, ids);
       h == MarkAll(g, order, Deletes(|order|))
  }

  /** The tables no lifecycle command touches. */
  ghost predicate LifecycleFrame(s: State, t: State) {
    && t.nodes == s.nodes && t.nextStreamId == s.nextStreamId && t.nextProducerId == s.nextProducerId && t.kv == s.kv
    && t.objects.nextObjectId == s.objects.nextObjectId && t.objects.prepared == s.objects.prepared
    && t.objects.setObjects == s.objects.setObjects
  }

  lemma TrimmedState(s: State, t: State, n: int, id: nat, epoch: int, start: nat)
    requires TrimRefusal(s, n, id, epoch, start).None? && LifecycleFrame(s, t) && t.transfers == s.transfers
    requires t.streams == s.streams[id := s.streams[id].(startOffset := start)] && t.epochs == PruneEpochs(s.epochs, id, start)
    requires Destroyed(s.objects.streamObjects, ObjectsBelow(s.objects.streamObjects, id, start), t.objects.streamObjects,
                       s.objects.garbage, t.objects.garbage)
    ensures Same(t, TrimStreamStep(s, n, id, epoch, start).value.state)
  {
  }

  lemma DeletedState(s: State, t: State, n: int, id: nat, epoch: int)
    requires id in s.streams && DeleteRefusal(s, n, id, epoch).None? && LifecycleFrame(s, t)
    requires t.streams == s.streams - {id} && t.epochs == DropEpochs(s.epochs, id) && t.transfers == s.transfers - {id}
    requires Destroyed(s.objects.streamObjects, ObjectsOfStream(s.objects.streamObjects, id), t.objects.streamObjects,
                       s.objects.garbage, t.objects.garbage)
    ensures Same(t, DeleteStreamStep(s, n, id, epoch).value.state)
  {
  }

  /** The lease ended, the rows as compacted, the sources queued, and nothing else. */
  ghost predicate CompactWrote(s: State, t: State, r: CompactRequest, nowMs: int, refusal: Option<MetadataError>) {
    && CommitLeaves(s, t) && t.streams == s.streams && t.objects.setObjects == s.objects.setObjects
    && t.objects.prepared == s.objects.prepared - {r.objectId}
    && t.objects.streamObjects == CompactedObjects(s.objects.streamObjects, r, nowMs)
    && Marked(s.objects.garbage, r.sources, r.operations, refusal, t.objects.garbage)
  }

  /** All of the sources are queued, each with its operation, or the lists do not match. */
  ghost predicate Marked(g: Garbage, ids: seq<nat>, ops: seq<CompactOperation>, refusal: Option<MetadataError>, h: Garbage) {
    if OperationsMatch(ids, ops) then refusal == None && h == MarkAll(g, ids, SourceOperations(ids, ops))
    else refusal == Some(Unexpected)
  }

  lemma CompactedState(s: State, t: State, r: CompactRequest, nowMs: int, refusal: Option<MetadataError>)
    requires CompactCheck(s, r).None? && CompactWrote(s, t, r, nowMs, refusal)
    ensures Reply(CompactStep(s, r, nowMs)) == if refusal.Some? then Err(refusal.value) else Ok(Unit)
    ensures refusal.None? ==> Same(t, CompactStep(s, r, nowMs).value.state)
  {
  }

  /** What the caller is told. */
  ghost function Reply(spec: StepResult): Outcome<MetadataResult> {
    match spec
    case Ok(a) => Ok(a.result)
    case Err(e) => Err(e)
  }

  lemma BlockGrows<T>(m: map<nat, T>, first: nat, i: nat, value: T)
    ensures (m + Block(first, i, value))[first + i := value] == m + Block(first, i + 1, value)
  {
  }

  lemma MarkAllNext(g: Garbage, ids: seq<nat>, i: nat)
    requires i < |ids|
    ensures MarkAll(g, ids[..i + 1], Deletes(i + 1)) == MarkOne(MarkAll(g, ids[..i], Deletes(i)), ids[i], Delete)
  {
    assert ids[..i + 1][..i] == ids[..i];
    assert Deletes(i + 1)[..i] == Deletes(i);
  }

  lemma SourcesInNext(objects: map<nat, StreamObject>, streamId: nat, ids: seq<nat>, i: nat)
    requires i < |ids|
    ensures SourcesIn(objects, streamId, ids[..i + 1]) ==
            SourcesIn(objects, streamId, ids[..i]) +
            if ids[i] in objects && objects[ids[i]].streamId == streamId then {ids[i]} else {}
  {
    IdSetNext(ids, i);
  }

  lemma IdSetNext(ids: seq<nat>, i: nat)
    requires i < |ids|
    ensures IdSet(ids[..i + 1]) == IdSet(ids[..i]) + {ids[i]}
  {
    forall x | x in IdSet(ids[..i + 1]) ensures x in IdSet(ids[..i]) + {ids[i]} {
      var j :| 0 <= j < i + 1 && ids[..i + 1][j] == x;
      if j < i { assert ids[..i][j] == x; }
    }
    forall x | x in IdSet(ids[..i]) + {ids[i]} ensures x in IdSet(ids[..i + 1]) {
      if x == ids[i] {
        assert ids[..i + 1][i] == x;
      } else {
        var j :| 0 <= j < i && ids[..i][j] == x;
        assert ids[..i + 1][j] == x;
      }
    }
  }

  /** The outcome of moving end offsets: the refusal, or the streams as moved. */
  ghost predicate Advanced(spec: Outcome<map<nat, Stream>>, refusal: Option<MetadataError>, after: map<nat, Stream>) {
    match spec
    case Ok(streams) => refusal == None && after == streams
    case Err(e) => refusal == Some(e)
  }

  lemma {:induction false} AdvanceErrorStays(streams: map<nat, Stream>, xs: seq<Slice>, compact: bool, i: nat)
    requires i <= |xs| && AdvanceAll(streams, xs[..i], compact).Err?
    ensures AdvanceAll(streams, xs, compact) == AdvanceAll(streams, xs[..i], compact)
    decreases |xs|
  {
    if i == |xs| {
      assert xs[..i] == xs;
    } else {
      assert xs[..|xs| - 1][..i] == xs[..i];
      AdvanceErrorStays(streams, xs[..|xs| - 1], compact, i);
    }
  }

  lemma {:induction false} CommitErrorStays(s: State, xs: seq<NewStreamObject>, compact: bool, t: Stamp, i: nat)
    requires i <= |xs| && CommitStreamObjects(s, xs[..i], compact, t).Err?
    ensures CommitStreamObjects(s, xs, compact, t) == CommitStreamObjects(s, xs[..i], compact, t)
    decreases |xs|
  {
    if i == |xs| {
      assert xs[..i] == xs;
    } else {
      assert xs[..|xs| - 1][..i] == xs[..i];
      CommitErrorStays(s, xs[..|xs| - 1], compact, t, i);
    }
  }

  /** The rows a commit writes. */
  ghost function ObjectsWritten(s: State, n: int, r: CommitRequest, t: Stamp): Outcome<State> {
    var withSet :- CommitSetObject(s, n, r, t);
    CommitStreamObjects(withSet, r.streamObjects, r.compacted != [], t)
  }

  /** What an accepted commit leaves, once its stamp is known. */
  ghost function CommitWritten(s: State, n: int, r: CommitRequest, t: Stamp): Outcome<State> {
    ObjectsWritten(s.(objects := DestroySetObjects(s.objects, r.compacted)), n, r, t)
  }

  /** A commit leaves every other table alone, and queues exactly the objects it compacts. */
  lemma CommitWrittenFrame(s: State, n: int, r: CommitRequest, t: Stamp)
    requires CommitWritten(s, n, r, t).Ok?
    ensures var u := CommitWritten(s, n, r, t).value;
            && u.nodes == s.nodes && u.transfers == s.transfers && u.epochs == s.epochs && u.kv == s.kv
            && u.nextStreamId == s.nextStreamId && u.nextProducerId == s.nextProducerId
            && u.objects.nextObjectId == s.objects.nextObjectId
            && u.objects.garbage == MarkAll(s.objects.garbage, r.compacted, Deletes(|r.compacted|))
  {
    var freed := s.(objects := DestroySetObjects(s.objects, r.compacted));
    var withSet := CommitSetObject(freed, n, r, t).value;
    CommitStreamObjectsFrame(withSet, r.streamObjects, r.compacted != [], t);
    CommitStreamObjectsIds(withSet, r.streamObjects, r.compacted != [], t);
  }

  /** The tables no commit touches. */
  ghost predicate CommitLeaves(s: State, t: State) {
    && t.nodes == s.nodes && t.transfers == s.transfers && t.epochs == s.epochs && t.kv == s.kv
    && t.nextStreamId == s.nextStreamId && t.nextProducerId == s.nextProducerId
    && t.objects.nextObjectId == s.objects.nextObjectId
  }

  lemma CommittedState(s: State, after: State, n: int, r: CommitRequest, nowMs: int, refusal: Option<MetadataError>)
    requires !RedundantCommit(s.objects, r) && SourcesExist(s.objects, r) && CommitLeaves(s, after)
    requires after.objects.garbage == MarkAll(s.objects.garbage, r.compacted, Deletes(|r.compacted|))
    requires Agreed(CommitWritten(s, n, r, CommitStamp(s.objects, r, nowMs)), refusal, after.streams, after.objects.prepared,
                    after.objects.setObjects, after.objects.streamObjects)
    ensures Reply(CommitStep(s, n, r, nowMs)) == if refusal.Some? then Err(refusal.value) else Ok(Unit)
    ensures refusal.None? ==> Same(after, CommitStep(s, n, r, nowMs).value.state)
  {
    if refusal.None? {
      CommitWrittenFrame(s, n, r, CommitStamp(s.objects, r, nowMs));
    }
  }

  function RowOf(x: NewStreamObject, t: Stamp): StreamObject {
    StreamObject(x.streamId, x.startOffset, x.endOffset, x.objectSize, x.attributes, t.nowMs, t.dataMs, t.lastWriteMs)
  }

  function SetRowOf(n: int, r: CommitRequest, t: Stamp): SetObject {
    SetObject(n, r.slices, r.objectSize, r.attributes, t.nowMs, t.dataMs, t.lastWriteMs)
  }

  lemma NewObjectWritten(s: State, x: NewStreamObject, compact: bool, t: Stamp, refusal: Option<MetadataError>,
                         streams: map<nat, Stream>, prepared: map<nat, int>, objects: map<nat, StreamObject>)
    requires ObjectIdFree(s.objects, x.objectId, Some(OffsetKey(x.streamId, x.startOffset, x.objectId)))
    requires Advanced(Advance(s.streams, x.streamId, x.startOffset, x.endOffset, compact), refusal, streams)
    requires prepared == s.objects.prepared - {x.objectId}
    requires refusal.None? ==> objects == s.objects.streamObjects[x.objectId := RowOf(x, t)]
    ensures Agreed(CommitStreamObject(s, x, compact, t), refusal, streams, prepared, s.objects.setObjects, objects)
  {
  }

  lemma SetObjectWritten(s: State, n: int, r: CommitRequest, t: Stamp, refusal: Option<MetadataError>,
                         streams: map<nat, Stream>, prepared: map<nat, int>, sets: map<nat, SetObject>)
    requires r.objectId != NOOP_OBJECT_ID && ObjectIdFree(s.objects, r.objectId, None)
    requires Advanced(AdvanceAll(s.streams, r.slices, r.compacted != []), refusal, streams)
    requires prepared == s.objects.prepared - {r.objectId}
    requires refusal.None? ==> sets == s.objects.setObjects[r.objectId := SetRowOf(n, r, t)]
    ensures Agreed(CommitSetObject(s, n, r, t), refusal, streams, prepared, sets, s.objects.streamObjects)
  {
  }

  /** These are the tables of `s` that a commit writes. */
  ghost predicate Mirrors(s: State, streams: map<nat, Stream>, prepared: map<nat, int>,
                          sets: map<nat, SetObject>, objects: map<nat, StreamObject>) {
    && s.streams == streams && s.objects.prepared == prepared
    && s.objects.setObjects == sets && s.objects.streamObjects == objects
  }

  /** The outcome of writing objects: the refusal, or tables that agree with the specification's. */
  ghost predicate Agreed(spec: Outcome<State>, refusal: Option<MetadataError>, streams: map<nat, Stream>,
                         prepared: map<nat, int>, sets: map<nat, SetObject>, objects: map<nat, StreamObject>) {
    match spec
    case Ok(u) => refusal == None && Mirrors(u, streams, prepared, sets, objects)
    case Err(e) => refusal == Some(e)
  }
}
