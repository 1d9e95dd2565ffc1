/** The stored form of a token record byte by byte: the tags, what reading accepts, and that writing what was
    read puts it into the one form that is written. */
module WireFormat {
  import opened Prelude
  import opened Names
  import opened Scopes
  import opened TokenCodec

  // -------------------------------------------------------------------- tags

  /** Operations in the order of their tags, from 1; 14 is no tag. */
  const TAGGED: seq<Operation> :=
    [Read, Head, List, Create, Append, Trim, Operation.Close, Operation.Delete, IssueToken, RevokeToken, ListTokens,
     ClusterRead, NodeRead, Operation.TransferStream, UpdateNodeSlots, DeleteGroup, Consume, DescribeGroup]

  function TagAt(i: nat): nat { if i < 13 then i + 1 else i + 2 }

  lemma OperationTags(i: nat)
    requires i < |TAGGED|
    ensures OperationTag(TAGGED[i]) == TagAt(i) && OperationFromTag(TagAt(i)) == Ok(TAGGED[i])
  {
  }

  /** Any other byte is malformed. */
  lemma OtherTags(tag: byte)
    ensures OperationFromTag(tag).Ok? <==> 1 <= tag <= 13 || 15 <= tag <= 19
    ensures AudienceFromTag(tag).Ok? <==> 1 <= tag <= 4
    ensures AudienceTag(Pico) == 1 && AudienceTag(DurableStreams) == 2 && AudienceTag(Admin) == 3 && AudienceTag(Kafka) == 4
  {
  }

  // ----------------------------------------------------------------- reading

  /** A flag is set by the byte 1, and by no other. */
  lemma FlagReads(b: Str)
    ensures ParseBool(b) == if b == [] then Err(Malformed) else Ok(Taken(b[0] == 1, b[1..]))
  {
  }

  /** A string is four bytes of length, not negative and not more than there is, and so many bytes of UTF-8. */
  lemma StringReads(b: Str)
    ensures ParseStr(b).Ok? <==>
            |b| >= 4 && var n := FromBigEndian(b[..4]); n < 0x8000_0000 && 4 + n <= |b| && Utf8(b[4..4 + n])
    ensures ParseStr(b).Ok? ==>
              var n := FromBigEndian(b[..4]); ParseStr(b).value == Taken(b[4..4 + n], b[4 + n..])
  {
    if |b| >= 4 {
      BigEndianBound(b[..4]);
      assert Pow256(4) == TWO_32;
      var n := FromBigEndian(b[..4]);
      if n < 0x8000_0000 && 4 + n <= |b| {
        assert b[4..][..n] == b[4..4 + n] && b[4..][n..] == b[4 + n..];
      }
    }
  }

  lemma {:induction false} BigEndianBound(s: Str)
    ensures FromBigEndian(s) < Pow256(|s|)
    decreases |s|
  {
    if s != [] { BigEndianBound(s[..|s| - 1]); }
  }

  lemma I32Range(b: Str)
    requires ParseI32(b).Ok?
    ensures -TWO_31 <= ParseI32(b).value.value < TWO_31
  {
    BigEndianBound(b[..4]);
    assert Pow256(4) == TWO_32;
  }

  lemma I64Range(b: Str)
    requires ParseI64(b).Ok?
    ensures -TWO_63 <= ParseI64(b).value.value < TWO_63
  {
    BigEndianBound(b[..8]);
    assert Pow256(4) == TWO_32;
    assert Pow256(8) == TWO_64;
  }

  lemma StrIsStorable(b: Str)
    requires ParseStr(b).Ok?
    ensures Storable(ParseStr(b).value.value)
  {
    I32Range(b);
  }

  lemma {:induction false} ManyAreStorable(n: nat, b: Str)
    requires ParseMany(ParseMatcher, n, b).Ok?
    ensures var xs := ParseMany(ParseMatcher, n, b).value.value; |xs| == n && forall i :: 0 <= i < n ==> Storable(xs[i].text)
    decreases n
  {
    if n > 0 {
      ManyAreStorable(n - 1, b);
      var rest := ParseMany(ParseMatcher, n - 1, b).value.rest;
      MatcherIsStorable(rest);
    }
  }

  lemma MatcherIsStorable(b: Str)
    requires ParseMatcher(b).Ok?
    ensures Storable(ParseMatcher(b).value.value.text)
  {
    StrIsStorable(b[1..]);
  }

  lemma SetIsStorable(b: Str)
    requires ParseList(ParseMatcher, b).Ok?
    ensures StorableSet(ParseList(ParseMatcher, b).value.value)
  {
    I32Range(b);
    ManyAreStorable(ParseI32(b).value.value, ParseI32(b).value.rest);
  }

  lemma NamesAreStorable(b: Str)
    requires ParseNames(b).Ok?
    ensures var n := ParseNames(b).value.value; StorableSet(n.streams) && StorableSet(n.tokens) && StorableSet(n.groups)
  {
    var streams := ParseList(ParseMatcher, b).value;
    var tokens := ParseList(ParseMatcher, streams.rest).value;
    SetIsStorable(b);
    SetIsStorable(streams.rest);
    SetIsStorable(tokens.rest);
  }

  lemma ScopeIsStorable(b: Str)
    requires ParseScope(b).Ok?
    ensures StorableScope(ParseScope(b).value.value)
  {
    NamesAreStorable(b);
    var names := ParseNames(b).value;
    var rights := ParseRights(names.rest).value;
    var auto := ParseBool(rights.rest).value;
    I64Range(ParseBool(auto.rest).value.rest);
  }

  lemma TailIsStorable(id: Str, verifier: Str, b: Str)
    requires ParseTail(id, verifier, b).Ok?
    ensures var r := ParseTail(id, verifier, b).value.value;
            && r.id == id && r.verifier == verifier && StorableScope(r.scope)
            && -TWO_63 <= r.createdAtMs < TWO_63 && Storable(r.issuedBy)
  {
    var scope := ParseScope(b).value;
    ScopeIsStorable(b);
    I64Range(scope.rest);
    StrIsStorable(ParseI64(scope.rest).value.rest);
  }

  /** Whatever is read at all is a record the program can hold, under an id of 1 to 96 bytes and with a verifier
      of 32. */
  lemma ReadIsStorable(b: Str)
    requires Decode(b).Ok?
    ensures var r := Decode(b).value; StorableRecord(r) && 1 <= |r.id| <= 96 && |r.verifier| == 32
  {
    var id := ParseStr(b).value;
    StrIsStorable(b);
    var verifier := ParseVerifier(id.rest).value;
    TailIsStorable(id.value, verifier.value, verifier.rest);
  }

  /** So it can be written again, and then reads as the same record: the bytes may differ, the record does not. */
  lemma RewritingKeepsRecord(b: Str)
    requires Decode(b).Ok?
    ensures Decode(Encode(Decode(b).value)) == Decode(b)
  {
    ReadIsStorable(b);
    DecodeEncodeIff(Decode(b).value);
  }

  // ------------------------------------------------------------------ a sample

  const SAMPLE: TokenRecord :=
    TokenRecord([116], seq(32, _ => 7),
                Scope([Exact([97]), Prefix([98])], [], [Prefix([])],
                      Access(ReadWrite(true, false), ReadWrite(false, true), ReadWrite(true, true), ReadWrite(false, false)),
                      {Consume, ClusterRead}, {Kafka, Pico}, true, Some(258)),
                -2, [120])

  lemma Counts()
    ensures EncodeI32(0) == [0, 0, 0, 0] && EncodeI32(1) == [0, 0, 0, 1] && EncodeI32(2) == [0, 0, 0, 2]
  {
    assert BigEndian(0, 4) == [0, 0, 0, 0] && BigEndian(1, 4) == [0, 0, 0, 1] && BigEndian(2, 4) == [0, 0, 0, 2];
  }

  lemma Times()
    ensures EncodeI64(258) == [0, 0, 0, 0, 0, 0, 1, 2] && EncodeI64(-2) == [255, 255, 255, 255, 255, 255, 255, 254]
  {
    assert BigEndian(258, 8) == [0, 0, 0, 0, 0, 0, 1, 2];
    assert -2 % TWO_64 == 0xFFFF_FFFF_FFFF_FFFE;
    assert BigEndian(0xFFFF_FFFF_FFFF_FFFE, 8) == [255, 255, 255, 255, 255, 255, 255, 254];
  }

  lemma EncodeNone<T>(item: T -> Str)
    ensures EncodeList(item, []) == [0, 0, 0, 0]
  {
    Counts();
  }

  lemma EncodeOne<T>(item: T -> Str, x: T)
    ensures EncodeList(item, [x]) == [0, 0, 0, 1] + item(x)
  {
    Counts();
    ManyOne(item, x);
  }

  lemma ManyOne<T>(item: T -> Str, x: T)
    ensures EncodeMany(item, [x]) == item(x)
  {
    assert [x][..0] == [];
    assert EncodeMany(item, [x]) == EncodeMany(item, []) + item(x);
  }

  lemma ManyTwo<T>(item: T -> Str, x: T, y: T)
    ensures EncodeMany(item, [x, y]) == item(x) + item(y)
  {
    ManyOne(item, x);
    assert [x, y][..1] == [x];
  }

  lemma Regroup(a: Str, b: Str, c: Str)
    ensures a + (b + c) == a + b + c
  {
  }

  lemma EncodeTwo<T>(item: T -> Str, x: T, y: T)
    ensures EncodeList(item, [x, y]) == [0, 0, 0, 2] + item(x) + item(y)
  {
    Counts();
    ManyTwo(item, x, y);
    Regroup([0, 0, 0, 2], item(x), item(y));
  }

  lemma SampleMatchers()
    ensures EncodeMatcher(Exact([97])) == [1, 0, 0, 0, 1, 97] && EncodeMatcher(Prefix([98])) == [2, 0, 0, 0, 1, 98]
    ensures EncodeMatcher(Prefix([])) == [2, 0, 0, 0, 0]
  {
    Counts();
    assert EncodeStr([97]) == [0, 0, 0, 1, 97] && EncodeStr([98]) == [0, 0, 0, 1, 98] && EncodeStr([]) == [0, 0, 0, 0];
  }

  lemma SampleNames()
    ensures EncodeNames(SAMPLE.scope) ==
            ([0, 0, 0, 2] + [1, 0, 0, 0, 1, 97] + [2, 0, 0, 0, 1, 98]) + [0, 0, 0, 0] + ([0, 0, 0, 1] + [2, 0, 0, 0, 0])
  {
    SampleMatchers();
    EncodeTwo(EncodeMatcher, Exact([97]), Prefix([98]));
    EncodeNone(EncodeMatcher);
    EncodeOne(EncodeMatcher, Prefix([]));
  }

  /** Sets are listed in the order in which their members are declared, not in that of the tags. */
  lemma SampleLists()
    ensures Listed(OPERATIONS, SAMPLE.scope.ops) == [Consume, ClusterRead]
    ensures Listed(AUDIENCES, SAMPLE.scope.audiences) == [Pico, Kafka]
  {
    ListedIs(OPERATIONS, SAMPLE.scope.ops, 11, 14);
    ListedIs(AUDIENCES, SAMPLE.scope.audiences, 0, 3);
  }

  lemma {:induction false} ListedIs<T>(all: seq<T>, s: set<T>, i: nat, j: nat)
    requires i < j && forall k :: 0 <= k < |all| ==> (all[k] in s <==> k == i || k == j)
    ensures Listed(all, s) == (if i < |all| then [all[i]] else []) + (if j < |all| then [all[j]] else [])
    decreases |all|
  {
    if all != [] {
      var n := |all| - 1;
      assert forall k :: 0 <= k < n ==> all[..n][k] == all[k];
      ListedIs(all[..n], s, i, j);
    }
  }

  lemma SampleAccess()
    ensures EncodeAccess(SAMPLE.scope.access) == [1, 0, 0, 1, 1, 1, 0, 0]
  {
  }

  lemma SampleRights()
    ensures EncodeRights(SAMPLE.scope) ==
            [1, 0, 0, 1, 1, 1, 0, 0] + ([0, 0, 0, 2] + [18] + [12]) + ([0, 0, 0, 2] + [1] + [4])
  {
    SampleLists();
    EncodeTwo(EncodeOperation, Consume, ClusterRead);
    EncodeTwo(EncodeAudience, Pico, Kafka);
    SampleAccess();
  }

  /** The sample in the form it is stored in: id, verifier, scope, time, issuer. */
  lemma SampleBytes()
    ensures Encode(SAMPLE) ==
            ([0, 0, 0, 1] + [116]) + seq(32, _ => 7)
            + ((([0, 0, 0, 2] + [1, 0, 0, 0, 1, 97] + [2, 0, 0, 0, 1, 98]) + [0, 0, 0, 0] + ([0, 0, 0, 1] + [2, 0, 0, 0, 0])
                + ([1, 0, 0, 1, 1, 1, 0, 0] + ([0, 0, 0, 2] + [18] + [12]) + ([0, 0, 0, 2] + [1] + [4]))
                + [1] + ([1] + [0, 0, 0, 0, 0, 0, 1, 2]))
               + [255, 255, 255, 255, 255, 255, 255, 254] + ([0, 0, 0, 1] + [120]))
  {
    Counts();
    Times();
    SampleNames();
    SampleRights();
  }
}
