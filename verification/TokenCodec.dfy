/** The stored form of a token record: length-prefixed, big-endian, no version byte. What is written is
    read back unchanged, and nothing shorter or longer than what was written is read at all. */
module TokenCodec {
  import opened Prelude
  import opened Names
  import opened Scopes

  const VERIFIER_LEN := 32
  const ID_MIN_LEN := 1
  const ID_MAX_LEN := 96
  const TWO_31 := 0x8000_0000
  const TWO_32 := 0x1_0000_0000
  const TWO_63 := 0x8000_0000_0000_0000
  const TWO_64 := 0x1_0000_0000_0000_0000

  datatype TokenRecord = TokenRecord(id: Str, verifier: Str, scope: Scope, createdAtMs: int, issuedBy: Str)

  datatype CodecError = Malformed

  /** A value, and the bytes that follow it. */
  datatype Taken<+T> = Taken(value: T, rest: Str)

  type Parsed<+T> = Result<Taken<T>, CodecError>

  // --------------------------------------------------------------- integers

  /** The low `k` bytes of `x`, most significant first. */
  function BigEndian(x: nat, k: nat): (s: Str)
    ensures |s| == k
  {
    if k == 0 then [] else BigEndian(x / 256, k - 1) + [x % 256]
  }

  function FromBigEndian(s: Str): nat {
    if s == [] then 0 else FromBigEndian(s[..|s| - 1]) * 256 + s[|s| - 1]
  }

  function Pow256(k: nat): nat {
    if k == 0 then 1 else 256 * Pow256(k - 1)
  }

  lemma {:induction false} BigEndianReadsBack(x: nat, k: nat)
    requires x < Pow256(k)
    ensures FromBigEndian(BigEndian(x, k)) == x
  {
    if k > 0 {
      assert x / 256 < Pow256(k - 1);
      BigEndianReadsBack(x / 256, k - 1);
      assert BigEndian(x, k)[..k - 1] == BigEndian(x / 256, k - 1);
    }
  }

  /** Two's complement of a signed value that fits, or of what is left of one that does not. */
  function EncodeI32(x: int): Str { BigEndian(x % TWO_32, 4) }

  function EncodeI64(x: int): Str { BigEndian(x % TWO_64, 8) }

  function ParseU8(b: Str): Parsed<byte> {
    if |b| < 1 then Err(Malformed) else Ok(Taken(b[0], b[1..]))
  }

  function ParseI32(b: Str): Parsed<int> {
    if |b| < 4 then Err(Malformed)
    else
      var x := FromBigEndian(b[..4]);
      Ok(Taken(if x < TWO_31 then x else x - TWO_32, b[4..]))
  }

  function ParseI64(b: Str): Parsed<int> {
    if |b| < 8 then Err(Malformed)
    else
      var x := FromBigEndian(b[..8]);
      Ok(Taken(if x < TWO_63 then x else x - TWO_64, b[8..]))
  }

  lemma I32ReadsBack(x: int, rest: Str)
    requires -TWO_31 <= x < TWO_31
    ensures ParseI32(EncodeI32(x) + rest) == Ok(Taken(x, rest))
  {
    assert Pow256(4) == TWO_32;
    BigEndianReadsBack(x % TWO_32, 4);
    assert (EncodeI32(x) + rest)[..4] == EncodeI32(x);
    assert (EncodeI32(x) + rest)[4..] == rest;
  }

  lemma I64ReadsBack(x: int, rest: Str)
    requires -TWO_63 <= x < TWO_63
    ensures ParseI64(EncodeI64(x) + rest) == Ok(Taken(x, rest))
  {
    assert Pow256(4) == TWO_32;
    assert Pow256(8) == TWO_64;
    BigEndianReadsBack(x % TWO_64, 8);
    assert (EncodeI64(x) + rest)[..8] == EncodeI64(x);
    assert (EncodeI64(x) + rest)[8..] == rest;
  }

  // ---------------------------------------------------------------- strings

  function EncodeStr(s: Str): Str { EncodeI32(|s|) + s }

  function ParseStr(b: Str): Parsed<Str> {
    var n :- ParseI32(b);
    if n.value < 0 || |n.rest| < n.value || !Utf8(n.rest[..n.value]) then Err(Malformed)
    else Ok(Taken(n.rest[..n.value], n.rest[n.value..]))
  }

  /** A string whose length the format can hold. */
  predicate Storable(s: Str) { |s| < TWO_31 && Utf8(s) }

  lemma StrReadsBack(s: Str, rest: Str)
    requires Storable(s)
    ensures ParseStr(EncodeStr(s) + rest) == Ok(Taken(s, rest))
  {
    assert EncodeStr(s) + rest == EncodeI32(|s|) + (s + rest);
    I32ReadsBack(|s|, s + rest);
    assert (s + rest)[..|s|] == s && (s + rest)[|s|..] == rest;
  }

  // ------------------------------------------------------------------ lists

  /** `n` items, one after another. */
  function ParseMany<T>(item: Str -> Parsed<T>, n: nat, b: Str): Parsed<seq<T>> {
    if n == 0 then Ok(Taken([], b))
    else
      var before :- ParseMany(item, n - 1, b);
      var last :- item(before.rest);
      Ok(Taken(before.value + [last.value], last.rest))
  }

  /** A count, then that many items. */
  function ParseList<T>(item: Str -> Parsed<T>, b: Str): Parsed<seq<T>> {
    var n :- ParseI32(b);
    if n.value < 0 then Err(Malformed) else ParseMany(item, n.value, n.rest)
  }

  function EncodeMany<T>(item: T -> Str, xs: seq<T>): Str {
    if xs == [] then [] else EncodeMany(item, xs[..|xs| - 1]) + item(xs[|xs| - 1])
  }

  function EncodeList<T>(item: T -> Str, xs: seq<T>): Str {
    EncodeI32(|xs|) + EncodeMany(item, xs)
  }

  ghost predicate ItemReadsBack<T(!new)>(enc: T -> Str, item: Str -> Parsed<T>, x: T) {
    forall rest: Str :: item(enc(x) + rest) == Ok(Taken(x, rest))
  }

  lemma {:induction false} ManyReadBack<T(!new)>(enc: T -> Str, item: Str -> Parsed<T>, xs: seq<T>, rest: Str)
    requires forall i :: 0 <= i < |xs| ==> ItemReadsBack(enc, item, xs[i])
    ensures ParseMany(item, |xs|, EncodeMany(enc, xs) + rest) == Ok(Taken(xs, rest))
    decreases |xs|
  {
    if xs != [] {
      var n := |xs| - 1;
      assert EncodeMany(enc, xs) + rest == EncodeMany(enc, xs[..n]) + (enc(xs[n]) + rest);
      ManyReadBack(enc, item, xs[..n], enc(xs[n]) + rest);
      assert ItemReadsBack(enc, item, xs[n]);
      assert xs[..n] + [xs[n]] == xs;
    } else {
      assert EncodeMany(enc, xs) + rest == rest;
    }
  }

  lemma ListReadsBack<T(!new)>(enc: T -> Str, item: Str -> Parsed<T>, xs: seq<T>, rest: Str)
    requires |xs| < TWO_31 && forall i :: 0 <= i < |xs| ==> ItemReadsBack(enc, item, xs[i])
    ensures ParseList(item, EncodeList(enc, xs) + rest) == Ok(Taken(xs, rest))
  {
    assert EncodeList(enc, xs) + rest == EncodeI32(|xs|) + (EncodeMany(enc, xs) + rest);
    I32ReadsBack(|xs|, EncodeMany(enc, xs) + rest);
    ManyReadBack(enc, item, xs, rest);
  }

  // ----------------------------------------------------------------- scopes

  function EncodeMatcher(m: Matcher): Str {
    match m
    case Exact(name) => [1] + EncodeStr(name)
    case Prefix(prefix) => [2] + EncodeStr(prefix)
  }

  function ParseMatcher(b: Str): Parsed<Matcher> {
    var tag :- ParseU8(b);
    if tag.value == 1 then
      var name :- ParseStr(tag.rest);
      Ok(Taken(Exact(name.value), name.rest))
    else if tag.value == 2 then
      var prefix :- ParseStr(tag.rest);
      Ok(Taken(Prefix(prefix.value), prefix.rest))
    else Err(Malformed)
  }

  function EncodeBool(x: bool): Str { [if x then 1 else 0] }

  function ParseBool(b: Str): Parsed<bool> {
    var t :- ParseU8(b);
    Ok(Taken(t.value == 1, t.rest))
  }

  function EncodeReadWrite(rw: ReadWrite): Str { EncodeBool(rw.read) + EncodeBool(rw.write) }

  function ParseReadWrite(b: Str): Parsed<ReadWrite> {
    var read :- ParseBool(b);
    var write :- ParseBool(read.rest);
    Ok(Taken(ReadWrite(read.value, write.value), write.rest))
  }

  function EncodeAccess(a: Access): Str {
    EncodeReadWrite(a.stream) + EncodeReadWrite(a.tokens) + EncodeReadWrite(a.group) + EncodeReadWrite(a.admin)
  }

  function ParseAccess(b: Str): Parsed<Access> {
    var stream :- ParseReadWrite(b);
    var tokens :- ParseReadWrite(stream.rest);
    var group :- ParseReadWrite(tokens.rest);
    var admin :- ParseReadWrite(group.rest);
    Ok(Taken(Access(stream.value, tokens.value, group.value, admin.value), admin.rest))
  }

  function OperationTag(op: Operation): byte {
    match op
    case Read => 1
    case Head => 2
    case List => 3
    case Create => 4
    case Append => 5
    case Trim => 6
    case Close => 7
    case Delete => 8
    case IssueToken => 9
    case RevokeToken => 10
    case ListTokens => 11
    case ClusterRead => 12
    case NodeRead => 13
    case TransferStream => 15
    case UpdateNodeSlots => 16
    case DeleteGroup => 17
    case Consume => 18
    case DescribeGroup => 19
  }

  const OPERATIONS: seq<Operation> :=
    [Read, Head, List, Create, Append, Trim, Close, Delete, IssueToken, RevokeToken, ListTokens,
     Consume, DescribeGroup, DeleteGroup, ClusterRead, NodeRead, TransferStream, UpdateNodeSlots]

  const AUDIENCES: seq<Audience> := [Pico, DurableStreams, Admin, Kafka]

  function OperationFromTag(tag: byte): Result<Operation, CodecError> {
    match tag
    case 1 => Ok(Operation.Read)
    case 2 => Ok(Head)
    case 3 => Ok(List)
    case 4 => Ok(Create)
    case 5 => Ok(Append)
    case 6 => Ok(Trim)
    case 7 => Ok(Close)
    case 8 => Ok(Delete)
    case 9 => Ok(IssueToken)
    case 10 => Ok(RevokeToken)
    case 11 => Ok(ListTokens)
    case 12 => Ok(ClusterRead)
    case 13 => Ok(NodeRead)
    case 15 => Ok(TransferStream)
    case 16 => Ok(UpdateNodeSlots)
    case 17 => Ok(DeleteGroup)
    case 18 => Ok(Consume)
    case 19 => Ok(DescribeGroup)
    case _ => Err(Malformed)
  }

  function AudienceTag(a: Audience): byte {
    match a
    case Pico => 1
    case DurableStreams => 2
    case Admin => 3
    case Kafka => 4
  }

  function AudienceFromTag(tag: byte): Result<Audience, CodecError> {
    match tag
    case 1 => Ok(Pico)
    case 2 => Ok(DurableStreams)
    case 3 => Ok(Admin)
    case 4 => Ok(Kafka)
    case _ => Err(Malformed)
  }

  function EncodeOperation(op: Operation): Str { [OperationTag(op)] }

  function ParseOperation(b: Str): Parsed<Operation> {
    var tag :- ParseU8(b);
    var op :- OperationFromTag(tag.value);
    Ok(Taken(op, tag.rest))
  }

  function EncodeAudience(a: Audience): Str { [AudienceTag(a)] }

  function ParseAudience(b: Str): Parsed<Audience> {
    var tag :- ParseU8(b);
    var a :- AudienceFromTag(tag.value);
    Ok(Taken(a, tag.rest))
  }

  /** The members of a set, in the order of `all`: how an ordered set is walked. */
  function Listed<T(==)>(all: seq<T>, s: set<T>): seq<T> {
    if all == [] then []
    else Listed(all[..|all| - 1], s) + if all[|all| - 1] in s then [all[|all| - 1]] else []
  }

  function Elements<T>(xs: seq<T>): set<T> { set x | x in xs }

  lemma ElementsConcat<T>(a: seq<T>, b: seq<T>)
    ensures Elements(a + b) == Elements(a) + Elements(b)
  {
  }

  lemma {:induction false} ListedElements<T>(all: seq<T>, s: set<T>)
    ensures Elements(Listed(all, s)) == Elements(all) * s && |Listed(all, s)| <= |all|
    decreases |all|
  {
    if all != [] {
      var init, last := all[..|all| - 1], all[|all| - 1];
      ListedElements(init, s);
      assert all == init + [last];
      ElementsConcat(init, [last]);
      ElementsConcat(Listed(init, s), if last in s then [last] else []);
    }
  }

  function EncodeExpiry(at: Option<int>): Str {
    EncodeBool(at.Some?) + EncodeI64(if at.Some? then at.value else 0)
  }

  function ParseExpiry(b: Str): Parsed<Option<int>> {
    var flag :- ParseBool(b);
    var raw :- ParseI64(flag.rest);
    Ok(Taken(if flag.value then Some(raw.value) else None, raw.rest))
  }

  function EncodeNames(s: Scope): Str {
    EncodeList(EncodeMatcher, s.streams) + EncodeList(EncodeMatcher, s.tokens) + EncodeList(EncodeMatcher, s.groups)
  }

  datatype NameSets = NameSets(streams: ResourceSet, tokens: ResourceSet, groups: ResourceSet)

  function ParseNames(b: Str): Parsed<NameSets> {
    var streams :- ParseList(ParseMatcher, b);
    var tokens :- ParseList(ParseMatcher, streams.rest);
    var groups :- ParseList(ParseMatcher, tokens.rest);
    Ok(Taken(NameSets(streams.value, tokens.value, groups.value), groups.rest))
  }

  function EncodeRights(s: Scope): Str {
    EncodeAccess(s.access) + EncodeList(EncodeOperation, Listed(OPERATIONS, s.ops)) +
    EncodeList(EncodeAudience, Listed(AUDIENCES, s.audiences))
  }

  datatype Rights = Rights(access: Access, ops: set<Operation>, audiences: set<Audience>)

  function ParseRights(b: Str): Parsed<Rights> {
    var access :- ParseAccess(b);
    var ops :- ParseList(ParseOperation, access.rest);
    var audiences :- ParseList(ParseAudience, ops.rest);
    Ok(Taken(Rights(access.value, Elements(ops.value), Elements(audiences.value)), audiences.rest))
  }

  function EncodeScope(s: Scope): Str {
    EncodeNames(s) + EncodeRights(s) + EncodeBool(s.autoPrefix) + EncodeExpiry(s.expiresAtMs)
  }

  function ParseScope(b: Str): Parsed<Scope> {
    var names :- ParseNames(b);
    var rights :- ParseRights(names.rest);
    var auto :- ParseBool(rights.rest);
    var expiry :- ParseExpiry(auto.rest);
    var n, r := names.value, rights.value;
    Ok(Taken(Scope(n.streams, n.tokens, n.groups, r.access, r.ops, r.audiences, auto.value, expiry.value), expiry.rest))
  }

  // ---------------------------------------------------------------- records

  /** After the id and the verifier. */
  function ParseTail(id: Str, verifier: Str, b: Str): Parsed<TokenRecord> {
    var scope :- ParseScope(b);
    var created :- ParseI64(scope.rest);
    var issuedBy :- ParseStr(created.rest);
    Ok(Taken(TokenRecord(id, verifier, scope.value, created.value, issuedBy.value), issuedBy.rest))
  }

  function EncodeTail(r: TokenRecord): Str {
    EncodeScope(r.scope) + EncodeI64(r.createdAtMs) + EncodeStr(r.issuedBy)
  }

  function Encode(r: TokenRecord): Str {
    EncodeStr(r.id) + r.verifier + EncodeTail(r)
  }

  predicate ValidId(id: Str) { ID_MIN_LEN <= |id| <= ID_MAX_LEN }

  function ParseVerifier(b: Str): Parsed<Str> {
    if |b| < VERIFIER_LEN then Err(Malformed) else Ok(Taken(b[..VERIFIER_LEN], b[VERIFIER_LEN..]))
  }

  function ParseRecord(b: Str): Parsed<TokenRecord> {
    var id :- ParseStr(b);
    if !ValidId(id.value) then Err(Malformed)
    else
      var verifier :- ParseVerifier(id.rest);
      ParseTail(id.value, verifier.value, verifier.rest)
  }

  function Decode(b: Str): Result<TokenRecord, CodecError> {
    var r :- ParseRecord(b);
    if r.rest != [] then Err(Malformed) else Ok(r.value)
  }

  // ------------------------------------------------------------- round trip

  predicate StorableSet(s: ResourceSet) {
    |s| < TWO_31 && forall i :: 0 <= i < |s| ==> Storable(s[i].text)
  }

  predicate StorableScope(s: Scope) {
    && StorableSet(s.streams) && StorableSet(s.tokens) && StorableSet(s.groups)
    && (s.expiresAtMs.Some? ==> -TWO_63 <= s.expiresAtMs.value < TWO_63)
  }

  /** A record as the program can hold it: UTF-8 strings, a 32-byte verifier, 64-bit times. */
  predicate StorableRecord(r: TokenRecord) {
    && Storable(r.id) && Storable(r.issuedBy) && |r.verifier| == VERIFIER_LEN
    && StorableScope(r.scope) && -TWO_63 <= r.createdAtMs < TWO_63
  }

  lemma MatcherReadsBack(m: Matcher)
    requires Storable(m.text)
    ensures ItemReadsBack(EncodeMatcher, ParseMatcher, m)
  {
    forall rest: Str ensures ParseMatcher(EncodeMatcher(m) + rest) == Ok(Taken(m, rest)) {
      var b := EncodeMatcher(m) + rest;
      assert b[1..] == EncodeStr(m.text) + rest;
      StrReadsBack(m.text, rest);
    }
  }

  lemma SetReadsBack(s: ResourceSet, rest: Str)
    requires StorableSet(s)
    ensures ParseList(ParseMatcher, EncodeList(EncodeMatcher, s) + rest) == Ok(Taken(s, rest))
  {
    forall i | 0 <= i < |s| ensures ItemReadsBack(EncodeMatcher, ParseMatcher, s[i]) {
      MatcherReadsBack(s[i]);
    }
    ListReadsBack(EncodeMatcher, ParseMatcher, s, rest);
  }

  lemma NamesReadBack(s: Scope, rest: Str)
    requires StorableScope(s)
    ensures ParseNames(EncodeNames(s) + rest) == Ok(Taken(NameSets(s.streams, s.tokens, s.groups), rest))
  {
    var a, b, c := EncodeList(EncodeMatcher, s.streams), EncodeList(EncodeMatcher, s.tokens), EncodeList(EncodeMatcher, s.groups);
    assert EncodeNames(s) + rest == a + (b + (c + rest));
    SetReadsBack(s.streams, b + (c + rest));
    SetReadsBack(s.tokens, c + rest);
    SetReadsBack(s.groups, rest);
  }

  lemma ReadWriteReadsBack(rw: ReadWrite, rest: Str)
    ensures ParseReadWrite(EncodeReadWrite(rw) + rest) == Ok(Taken(rw, rest))
  {
    var b := EncodeReadWrite(rw) + rest;
    assert b[1..] == EncodeBool(rw.write) + rest && b[1..][1..] == rest;
  }

  lemma AccessReadsBack(a: Access, rest: Str)
    ensures ParseAccess(EncodeAccess(a) + rest) == Ok(Taken(a, rest))
  {
    var s, t, g, d := EncodeReadWrite(a.stream), EncodeReadWrite(a.tokens), EncodeReadWrite(a.group), EncodeReadWrite(a.admin);
    assert EncodeAccess(a) + rest == s + (t + (g + (d + rest)));
    ReadWriteReadsBack(a.stream, t + (g + (d + rest)));
    ReadWriteReadsBack(a.tokens, g + (d + rest));
    ReadWriteReadsBack(a.group, d + rest);
    ReadWriteReadsBack(a.admin, rest);
  }

  /** Tags are read back, the gap at 14 notwithstanding. */
  lemma OperationReadsBack(op: Operation)
    ensures ItemReadsBack(EncodeOperation, ParseOperation, op)
  {
    forall rest: Str ensures ParseOperation(EncodeOperation(op) + rest) == Ok(Taken(op, rest)) {
      assert (EncodeOperation(op) + rest)[1..] == rest;
      assert OperationFromTag(OperationTag(op)) == Ok(op);
    }
  }

  lemma AudienceReadsBack(a: Audience)
    ensures ItemReadsBack(EncodeAudience, ParseAudience, a)
  {
    forall rest: Str ensures ParseAudience(EncodeAudience(a) + rest) == Ok(Taken(a, rest)) {
      assert (EncodeAudience(a) + rest)[1..] == rest;
    }
  }

  lemma EveryOperationListed(op: Operation)
    ensures op in OPERATIONS
  {
    match op
    case Read => assert OPERATIONS[0] == op;
    case Head => assert OPERATIONS[1] == op;
    case List => assert OPERATIONS[2] == op;
    case Create => assert OPERATIONS[3] == op;
    case Append => assert OPERATIONS[4] == op;
    case Trim => assert OPERATIONS[5] == op;
    case Close => assert OPERATIONS[6] == op;
    case Delete => assert OPERATIONS[7] == op;
    case IssueToken => assert OPERATIONS[8] == op;
    case RevokeToken => assert OPERATIONS[9] == op;
    case ListTokens => assert OPERATIONS[10] == op;
    case Consume => assert OPERATIONS[11] == op;
    case DescribeGroup => assert OPERATIONS[12] == op;
    case DeleteGroup => assert OPERATIONS[13] == op;
    case ClusterRead => assert OPERATIONS[14] == op;
    case NodeRead => assert OPERATIONS[15] == op;
    case TransferStream => assert OPERATIONS[16] == op;
    case UpdateNodeSlots => assert OPERATIONS[17] == op;
  }

  lemma EveryAudienceListed(a: Audience)
    ensures a in AUDIENCES
  {
    match a
    case Pico => assert AUDIENCES[0] == a;
    case DurableStreams => assert AUDIENCES[1] == a;
    case Admin => assert AUDIENCES[2] == a;
    case Kafka => assert AUDIENCES[3] == a;
  }

  lemma OperationsReadBack(ops: set<Operation>, rest: Str)
    ensures var listed := Listed(OPERATIONS, ops);
            ParseList(ParseOperation, EncodeList(EncodeOperation, listed) + rest) == Ok(Taken(listed, rest)) &&
            Elements(listed) == ops
  {
    var listed := Listed(OPERATIONS, ops);
    forall i | 0 <= i < |listed| ensures ItemReadsBack(EncodeOperation, ParseOperation, listed[i]) {
      OperationReadsBack(listed[i]);
    }
    ListedElements(OPERATIONS, ops);
    ListReadsBack(EncodeOperation, ParseOperation, listed, rest);
    forall op | op in ops ensures op in Elements(OPERATIONS) { EveryOperationListed(op); }
  }

  lemma AudiencesReadBack(audiences: set<Audience>, rest: Str)
    ensures var listed := Listed(AUDIENCES, audiences);
            ParseList(ParseAudience, EncodeList(EncodeAudience, listed) + rest) == Ok(Taken(listed, rest)) &&
            Elements(listed) == audiences
  {
    var listed := Listed(AUDIENCES, audiences);
    forall i | 0 <= i < |listed| ensures ItemReadsBack(EncodeAudience, ParseAudience, listed[i]) {
      AudienceReadsBack(listed[i]);
    }
    ListedElements(AUDIENCES, audiences);
    ListReadsBack(EncodeAudience, ParseAudience, listed, rest);
    forall a | a in audiences ensures a in Elements(AUDIENCES) { EveryAudienceListed(a); }
  }

  lemma RightsReadBack(s: Scope, rest: Str)
    ensures ParseRights(EncodeRights(s) + rest) == Ok(Taken(Rights(s.access, s.ops, s.audiences), rest))
  {
    var a := EncodeAccess(s.access);
    var o := EncodeList(EncodeOperation, Listed(OPERATIONS, s.ops));
    var u := EncodeList(EncodeAudience, Listed(AUDIENCES, s.audiences));
    assert EncodeRights(s) + rest == a + (o + (u + rest));
    AccessReadsBack(s.access, o + (u + rest));
    OperationsReadBack(s.ops, u + rest);
    AudiencesReadBack(s.audiences, rest);
  }

  lemma BoolReadsBack(x: bool, rest: Str)
    ensures ParseBool(EncodeBool(x) + rest) == Ok(Taken(x, rest))
  {
    assert (EncodeBool(x) + rest)[1..] == rest;
  }

  lemma ExpiryReadsBack(at: Option<int>, rest: Str)
    requires at.Some? ==> -TWO_63 <= at.value < TWO_63
    ensures ParseExpiry(EncodeExpiry(at) + rest) == Ok(Taken(at, rest))
  {
    var raw := if at.Some? then at.value else 0;
    assert EncodeExpiry(at) + rest == EncodeBool(at.Some?) + (EncodeI64(raw) + rest);
    BoolReadsBack(at.Some?, EncodeI64(raw) + rest);
    I64ReadsBack(raw, rest);
  }

  lemma ScopeReadsBack(s: Scope, rest: Str)
    requires StorableScope(s)
    ensures ParseScope(EncodeScope(s) + rest) == Ok(Taken(s, rest))
  {
    var n, r, p, e := EncodeNames(s), EncodeRights(s), EncodeBool(s.autoPrefix), EncodeExpiry(s.expiresAtMs);
    assert EncodeScope(s) + rest == n + (r + (p + (e + rest)));
    NamesReadBack(s, r + (p + (e + rest)));
    RightsReadBack(s, p + (e + rest));
    BoolReadsBack(s.autoPrefix, e + rest);
    ExpiryReadsBack(s.expiresAtMs, rest);
  }

  lemma VerifierReadsBack(v: Str, rest: Str)
    requires |v| == VERIFIER_LEN
    ensures ParseVerifier(v + rest) == Ok(Taken(v, rest))
  {
  }

  lemma TailReadsBack(r: TokenRecord, rest: Str)
    requires StorableRecord(r)
    ensures ParseTail(r.id, r.verifier, EncodeTail(r) + rest) == Ok(Taken(r, rest))
  {
    var s, c, b := EncodeScope(r.scope), EncodeI64(r.createdAtMs), EncodeStr(r.issuedBy);
    assert EncodeTail(r) + rest == s + (c + (b + rest));
    ScopeReadsBack(r.scope, c + (b + rest));
    I64ReadsBack(r.createdAtMs, b + rest);
    StrReadsBack(r.issuedBy, rest);
  }

  lemma RecordReadsBack(r: TokenRecord, rest: Str)
    requires StorableRecord(r) && ValidId(r.id)
    ensures ParseRecord(Encode(r) + rest) == Ok(Taken(r, rest))
  {
    var t := EncodeTail(r) + rest;
    assert Encode(r) + rest == EncodeStr(r.id) + (r.verifier + t);
    StrReadsBack(r.id, r.verifier + t);
    VerifierReadsBack(r.verifier, t);
    TailReadsBack(r, rest);
  }

  /** What was stored is read back, and only under an id of an acceptable length. */
  lemma DecodeEncodeIff(r: TokenRecord)
    requires StorableRecord(r)
    ensures Decode(Encode(r)) == Ok(r) <==> ValidId(r.id)
  {
    if ValidId(r.id) {
      RecordReadsBack(r, []);
      assert Encode(r) + [] == Encode(r);
    }
  }
}
