/** Why replacements must cover what they replace: a compaction whose range leaves out part of a source
    is accepted, and the source is destroyed all the same. */
module LossyCompaction {
  import opened MetadataTypes
  import opened Metadata
  import opened ObjectLifecycle
  import opened Coverage
  import opened BackwardCommits

  /** Two ids are leased and offsets 0 to 4 of stream 0 committed as stream object 0. */
  const LEASE: Command := PrepareObject(NODE, 2, 60, 0)
  const APPEND: Command :=
    CommitStreamSetObject(NODE, CommitRequest(NOOP_OBJECT_ID, 0, 0, [], [NewStreamObject(0, 1, 0, 0, 5, 0)], []), 0)

  /** Object 1 takes the place of object 0, for offsets 0 and 1 only. */
  const SHORT: CompactRequest := CompactRequest(1, 1, 0, 0, 0, 2, [0], [], 0)
  const COMPACT: Command := CompactStreamObject(NODE, SHORT, 0)

  const ROW: StreamObject := StreamObject(0, 0, 5, 1, 0, 0, 0, 0)

  const LEASED: State := OPENED.(objects := Objects(2, map[0 := 60, 1 := 60], map[], map[], Garbage(map[], 0)))

  const APPENDED: State :=
    LEASED.(streams := map[0 := Stream(0, 0, 5, Opened, 0)],
            objects := Objects(2, map[1 := 60], map[], map[0 := ROW], Garbage(map[], 0)))

  lemma LeaseState()
    ensures Step(OPENED, LEASE).Ok? && Apply(OPENED, LEASE) == LEASED
  {
    assert OPENED.objects.prepared + Block(0, 2, 60) == LEASED.objects.prepared;
  }

  lemma AppendState()
    ensures Step(LEASED, APPEND).Ok? && Apply(LEASED, APPEND) == APPENDED
  {
    var xs := APPEND.commit.streamObjects;
    assert xs[..0] == [] && Deletes(0) == [];
    assert LEASED.objects.setObjects - IdSet([]) == map[];
    var stamp := CommitStamp(LEASED.objects, APPEND.commit, 0);
    assert stamp == Stamp(0, 0, 0);
    assert CommitStreamObjects(LEASED, xs, false, stamp) == CommitStreamObject(LEASED, xs[0], false, stamp);
    assert LEASED.objects.prepared - {0} == map[1 := 60];
  }

  lemma ShortIsAccepted()
    ensures Step(APPENDED, COMPACT).Ok?
  {
  }

  lemma ReachesCompaction()
    ensures Run(Empty, Founding() + [LEASE, APPEND]) == APPENDED
    ensures Run(Empty, Founding() + [LEASE, APPEND] + [COMPACT]) == Apply(APPENDED, COMPACT)
  {
    FoundingState();
    LeaseState();
    AppendState();
    RunOfTwo(OPENED, LEASE, APPEND);
    RunConcat(Empty, Founding(), [LEASE, APPEND]);
    RunConcat(Empty, Founding() + [LEASE, APPEND], [COMPACT]);
    assert Run(APPENDED, [COMPACT]) == Apply(APPENDED, COMPACT);
  }

  /** Up to the compaction nothing is lost, and it breaks no lease discipline. Yet it loses offset 3. */
  lemma ShortCompactionLosesOffset()
    ensures var cs := Founding() + [LEASE, APPEND];
            var s, t := Run(Empty, cs), Run(Empty, cs + [COMPACT]);
            && Step(s, COMPACT).Ok? && Exclusive(s.objects) && LeaseDisciplined(s.objects, COMPACT)
            && NoDataLoss(s) && LiveOffset(t, 0, 3) && !Held(t.objects, 0, 3)
  {
    ReachesCompaction();
    ShortIsAccepted();
    AppendedHoldsAll();
    ShortLoses();
  }

  lemma AppendedHoldsAll()
    ensures NoDataLoss(APPENDED) && Exclusive(APPENDED.objects) && LeaseDisciplined(APPENDED.objects, COMPACT)
  {
    forall id, offset | LiveOffset(APPENDED, id, offset) ensures Held(APPENDED.objects, id, offset) {
      assert ObjectHolds(APPENDED.objects.streamObjects[0], id, offset);
    }
    assert IdSet([0]) == {0} by { assert [0][0] == 0; }
  }

  lemma ShortLoses()
    ensures var t := Apply(APPENDED, COMPACT); LiveOffset(t, 0, 3) && !Held(t.objects, 0, 3)
  {
    ShortIsAccepted();
    CompactHeldIff(APPENDED, SHORT, 0, 0, 3);
    var o := APPENDED.objects.streamObjects;
    assert 0 in IdSet(SHORT.sources) by { assert SHORT.sources[0] == 0; }
    assert 0 in SourcesIn(o, 0, SHORT.sources);
  }

  /** Object 0 is then queued for destruction, and may be committed once more. */
  const REUSE: CommitRequest := CommitRequest(NOOP_OBJECT_ID, 0, 0, [], [NewStreamObject(0, 1, 0, 5, 6, 0)], [])

  lemma ReuseIsAccepted(s: State)
    requires s.streams == APPENDED.streams && s.objects.setObjects == map[] && 0 !in s.objects.streamObjects
    ensures CommitStep(s, 0, REUSE, 0).Ok?
  {
    var xs := REUSE.streamObjects;
    assert xs[..0] == [] && Deletes(0) == [];
    var stamp := CommitStamp(s.objects, REUSE, 0);
    var freed := s.(objects := DestroySetObjects(s.objects, []));
    assert CommitStreamObjects(freed, xs, false, stamp) == CommitStreamObject(freed, xs[0], false, stamp);
  }

  lemma ReuseRevives(s: State)
    requires CompactStep(APPENDED, SHORT, 0).Ok? && s == CompactStep(APPENDED, SHORT, 0).value.state
    ensures 0 in s.objects.garbage.marks && CommitStep(s, 0, REUSE, 0).Ok?
    ensures var t := CommitStep(s, 0, REUSE, 0).value.state.objects;
            0 in t.garbage.marks && LiveObject(t, 0) && !Exclusive(t)
  {
    CompactIds(APPENDED, SHORT, 0);
    assert 0 in IdSet(SHORT.sources) by { assert SHORT.sources[0] == 0; }
    ReuseIsAccepted(s);
    CommitIds(s, 0, REUSE, 0);
    assert 0 in NewObjectIds(REUSE.streamObjects) by { assert REUSE.streamObjects[0].objectId == 0; }
  }

  lemma CommitIsStep(s: State, r: CommitRequest)
    requires Live(s, NODE)
    ensures Step(s, CommitStreamSetObject(NODE, r, 0)) == CommitStep(s, 0, r, 0)
  {
  }

  lemma CompactIsStep()
    ensures CompactStep(APPENDED, SHORT, 0).Ok? && Apply(APPENDED, COMPACT) == CompactStep(APPENDED, SHORT, 0).value.state
    ensures Live(Apply(APPENDED, COMPACT), NODE)
  {
    ShortIsAccepted();
  }

  lemma QueuedObjectCanReturn()
    ensures var s := Run(Empty, Founding() + [LEASE, APPEND] + [COMPACT]);
            var c := CommitStreamSetObject(NODE, REUSE, 0);
            var t := Apply(s, c).objects;
            && 0 in s.objects.garbage.marks && Step(s, c).Ok?
            && 0 in t.garbage.marks && LiveObject(t, 0) && !Exclusive(t)
  {
    var s := Run(Empty, Founding() + [LEASE, APPEND] + [COMPACT]);
    ReachesCompaction();
    CompactIsStep();
    ReuseRevives(s);
    CommitIsStep(s, REUSE);
  }
}
