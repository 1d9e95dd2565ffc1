/** Indexes and counters hold nothing of their own: two stores that agree on the primary tables agree on
    everything. This is what lets a snapshot leave them out and a restore rebuild them. */
module Rebuild {
  import opened MetadataTypes
  import opened Metadata
  import opened Indexes
  import opened MetadataStore

  lemma NodeIndexesDetermined(streams: map<nat, Stream>, o1: set<(int, nat)>, p1: set<(int, nat)>, c1: map<int, nat>,
                              o2: set<(int, nat)>, p2: set<(int, nat)>, c2: map<int, nat>)
    requires NodeIndexes(streams, o1, p1, c1) && NodeIndexes(streams, o2, p2, c2)
    ensures o1 == o2 && p1 == p2 && c1 == c2
  {
    forall p ensures (p in o1 <==> p in o2) && (p in p1 <==> p in p2) { assert AtPair(p); }
    forall n ensures n in c1 <==> n in c2 { assert AtNode(n); }
    forall n | n in c1 ensures c1[n] == c2[n] { assert AtNode(n); }
  }

  lemma DeadlinesDetermined(prepared: map<nat, int>, a: set<(int, nat)>, b: set<(int, nat)>)
    requires DeadlinesIndexed(prepared, a) && DeadlinesIndexed(prepared, b)
    ensures a == b
  {
    forall p ensures p in a <==> p in b { assert AtPair(p); }
  }

  lemma SetIndexesDetermined(sets: map<nat, SetObject>, r1: map<OffsetKey, (nat, nat)>, n1: set<(int, nat)>,
                             r2: map<OffsetKey, (nat, nat)>, n2: set<(int, nat)>)
    requires RangesIndexed(sets, r1) && SetsByNode(sets, n1) && RangesIndexed(sets, r2) && SetsByNode(sets, n2)
    ensures r1 == r2 && n1 == n2
  {
    forall k ensures (k in r1 <==> k in r2) && (k in r1 ==> r1[k] == r2[k]) { assert AtKey(k); }
    forall p ensures p in n1 <==> p in n2 { assert AtPair(p); }
  }

  lemma ObjectIndexesDetermined(byId: map<nat, StreamObject>, o1: map<OffsetKey, StreamObject>, i1: map<nat, OffsetKey>,
                                o2: map<OffsetKey, StreamObject>, i2: map<nat, OffsetKey>)
    requires ObjectsIndexed(o1, i1, byId) && ObjectsIndexed(o2, i2, byId)
    ensures o1 == o2 && i1 == i2
  {
    forall id | id in byId ensures i1[id] == i2[id] { assert AtObject(id); }
    forall k ensures (k in o1 <==> k in o2) && (k in o1 ==> o1[k] == o2[k]) {
      assert AtKey(k) && AtObject(k.objectId);
    }
  }

  lemma QueueDetermined(marks: map<nat, Mark>, next: nat, q1: map<nat, (nat, CompactOperation)>, d1: map<nat, nat>,
                        q2: map<nat, (nat, CompactOperation)>, d2: map<nat, nat>)
    requires QueueIndexed(q1, d1, next, marks) && QueueIndexed(q2, d2, next, marks)
    ensures q1 == q2 && d1 == d2
  {
    forall id | id in marks ensures d1[id] == d2[id] { assert AtObject(id); }
    forall q: nat ensures (q in q1 <==> q in q2) && (q in q1 ==> q1[q] == q2[q]) {
      assert AtSeq(q);
      if q in q1 { assert AtObject(q1[q].0); }
      if q in q2 { assert AtObject(q2[q].0); }
    }
  }

  lemma BytesDetermined(logical: map<nat, Stream>, sets: map<nat, SetObject>, objects: map<nat, StreamObject>,
                        r1: map<nat, StreamRow>, b1: nat, r2: map<nat, StreamRow>, b2: nat)
    requires RowsHold(r1, logical) && RowsHold(r2, logical)
    requires BytesCounted(r1, sets, objects, b1) && BytesCounted(r2, sets, objects, b2)
    ensures r1 == r2 && b1 == b2
  {
    assert AtStream(0);
    forall id | id in r1 ensures r1[id] == r2[id] { assert AtStream(id); }
  }

  /** Every index and every counter is a function of the primary tables. */
  lemma IndexesAreDetermined(a: MetadataState, b: MetadataState)
    requires a.Indexed() && b.Indexed() && a.View() == b.View()
    ensures a.openingByNode == b.openingByNode && a.placedByNode == b.placedByNode && a.streamsByNode == b.streamsByNode
    ensures a.preparedByDeadline == b.preparedByDeadline && a.ssoRanges == b.ssoRanges && a.ssoByNode == b.ssoByNode
    ensures a.streamObjects == b.streamObjects && a.streamObjectIds == b.streamObjectIds
    ensures a.markDestroyed == b.markDestroyed && a.destroyedById == b.destroyedById
    ensures a.streams == b.streams && a.storedBytes == b.storedBytes && a.kvBytes == b.kvBytes
  {
    NodeIndexesDetermined(a.logical, a.openingByNode, a.placedByNode, a.streamsByNode,
                          b.openingByNode, b.placedByNode, b.streamsByNode);
    DeadlinesDetermined(a.prepared, a.preparedByDeadline, b.preparedByDeadline);
    SetIndexesDetermined(a.streamSetObjects, a.ssoRanges, a.ssoByNode, b.ssoRanges, b.ssoByNode);
    ObjectIndexesDetermined(a.objectsById, a.streamObjects, a.streamObjectIds, b.streamObjects, b.streamObjectIds);
    QueueDetermined(a.marks, a.nextDestroyedSeq, a.markDestroyed, a.destroyedById, b.markDestroyed, b.destroyedById);
    BytesDetermined(a.logical, a.streamSetObjects, a.objectsById, a.streams, a.storedBytes, b.streams, b.storedBytes);
  }
}
