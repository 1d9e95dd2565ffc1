/** The codec as it runs: an encoder that appends to a buffer and a decoder that moves along one. */
module TokenBuffers {
  import opened Prelude
  import opened Sorting
  import opened Names
  import opened Scopes
  import opened TokenCodec

  // --------------------------------------------------------------- encoding

  lemma Append2(p: Str, a: Str, b: Str)
    ensures p + a + b == p + (a + b)
  {
  }

  lemma Append3(p: Str, a: Str, b: Str, c: Str)
    ensures p + a + b + c == p + (a + b + c)
  {
    Append2(p, a, b);
    Append2(p, a + b, c);
  }

  lemma Append4(p: Str, a: Str, b: Str, c: Str, d: Str)
    ensures p + a + b + c + d == p + (a + b + c + d)
  {
    Append3(p, a, b, c);
    Append2(p, a + b + c, d);
  }

  class Writer {
    var buf: Str

    constructor ()
      ensures buf == []
    {
      buf := [];
    }

    method PutU8(b: byte)
      modifies this
      ensures buf == old(buf) + [b]
    {
      buf := buf + [b];
    }

    /** Big-endian, the low four bytes. */
    method PutI32(x: int)
      modifies this
      ensures buf == old(buf) + EncodeI32(x)
    {
      buf := buf + EncodeI32(x);
    }

    method PutI64(x: int)
      modifies this
      ensures buf == old(buf) + EncodeI64(x)
    {
      buf := buf + EncodeI64(x);
    }

    method PutSlice(s: Str)
      modifies this
      ensures buf == old(buf) + s
    {
      buf := buf + s;
    }

    method PutStr(s: Str)
      modifies this
      ensures buf == old(buf) + EncodeStr(s)
    {
      PutI32(|s|);
      PutSlice(s);
      assert buf == old(buf) + EncodeStr(s);
    }

    method PutMatcher(m: Matcher)
      modifies this
      ensures buf == old(buf) + EncodeMatcher(m)
    {
      match m {
        case Exact(_) => PutU8(1);
        case Prefix(_) => PutU8(2);
      }
      PutStr(m.text);
      assert buf == old(buf) + EncodeMatcher(m);
    }

    method PutResourceSet(s: ResourceSet)
      modifies this
      ensures buf == old(buf) + EncodeList(EncodeMatcher, s)
    {
      PutI32(|s|);
      for i := 0 to |s|
        invariant buf == old(buf) + EncodeI32(|s|) + EncodeMany(EncodeMatcher, s[..i])
      {
        PutMatcher(s[i]);
        assert s[..i + 1][..i] == s[..i];
        assert buf == old(buf) + EncodeI32(|s|) + EncodeMany(EncodeMatcher, s[..i + 1]);
      }
      assert s[..|s|] == s;
      assert buf == old(buf) + EncodeList(EncodeMatcher, s);
    }

    method PutReadWrite(rw: ReadWrite)
      modifies this
      ensures buf == old(buf) + EncodeReadWrite(rw)
    {
      PutU8(if rw.read then 1 else 0);
      PutU8(if rw.write then 1 else 0);
      assert buf == old(buf) + EncodeReadWrite(rw);
    }

    method PutAccess(a: Access)
      modifies this
      ensures buf == old(buf) + EncodeAccess(a)
    {
      PutReadWrite(a.stream);
      PutReadWrite(a.tokens);
      PutReadWrite(a.group);
      PutReadWrite(a.admin);
      Append4(old(buf), EncodeReadWrite(a.stream), EncodeReadWrite(a.tokens), EncodeReadWrite(a.group),
              EncodeReadWrite(a.admin));
    }

    method PutOperations(ops: set<Operation>)
      modifies this
      ensures buf == old(buf) + EncodeList(EncodeOperation, Listed(OPERATIONS, ops))
    {
      var listed := Listed(OPERATIONS, ops);
      OperationsCounted(ops);
      PutI32(|ops|);
      for i := 0 to |listed|
        invariant buf == old(buf) + EncodeI32(|listed|) + EncodeMany(EncodeOperation, listed[..i])
      {
        PutU8(OperationTag(listed[i]));
        assert listed[..i + 1][..i] == listed[..i];
        assert buf == old(buf) + EncodeI32(|listed|) + EncodeMany(EncodeOperation, listed[..i + 1]);
      }
      assert listed[..|listed|] == listed;
      assert buf == old(buf) + EncodeList(EncodeOperation, listed);
    }

    method PutAudiences(audiences: set<Audience>)
      modifies this
      ensures buf == old(buf) + EncodeList(EncodeAudience, Listed(AUDIENCES, audiences))
    {
      var listed := Listed(AUDIENCES, audiences);
      AudiencesCounted(audiences);
      PutI32(|audiences|);
      for i := 0 to |listed|
        invariant buf == old(buf) + EncodeI32(|listed|) + EncodeMany(EncodeAudience, listed[..i])
      {
        PutU8(AudienceTag(listed[i]));
        assert listed[..i + 1][..i] == listed[..i];
        assert buf == old(buf) + EncodeI32(|listed|) + EncodeMany(EncodeAudience, listed[..i + 1]);
      }
      assert listed[..|listed|] == listed;
      assert buf == old(buf) + EncodeList(EncodeAudience, listed);
    }

    method PutNames(s: Scope)
      modifies this
      ensures buf == old(buf) + EncodeNames(s)
    {
      PutResourceSet(s.streams);
      PutResourceSet(s.tokens);
      PutResourceSet(s.groups);
      Append3(old(buf), EncodeList(EncodeMatcher, s.streams), EncodeList(EncodeMatcher, s.tokens),
              EncodeList(EncodeMatcher, s.groups));
    }

    method PutRights(s: Scope)
      modifies this
      ensures buf == old(buf) + EncodeRights(s)
    {
      PutAccess(s.access);
      PutOperations(s.ops);
      PutAudiences(s.audiences);
      Append3(old(buf), EncodeAccess(s.access), EncodeList(EncodeOperation, Listed(OPERATIONS, s.ops)),
              EncodeList(EncodeAudience, Listed(AUDIENCES, s.audiences)));
    }

    method PutExpiry(at: Option<int>)
      modifies this
      ensures buf == old(buf) + EncodeExpiry(at)
    {
      PutU8(if at.Some? then 1 else 0);
      PutI64(if at.Some? then at.value else 0);
      assert buf == old(buf) + EncodeExpiry(at);
    }

    method PutScope(s: Scope)
      modifies this
      ensures buf == old(buf) + EncodeScope(s)
    {
      PutNames(s);
      PutRights(s);
      PutU8(if s.autoPrefix then 1 else 0);
      PutExpiry(s.expiresAtMs);
      Append4(old(buf), EncodeNames(s), EncodeRights(s), EncodeBool(s.autoPrefix), EncodeExpiry(s.expiresAtMs));
    }

    method PutTail(r: TokenRecord)
      modifies this
      ensures buf == old(buf) + EncodeTail(r)
    {
      PutScope(r.scope);
      PutI64(r.createdAtMs);
      PutStr(r.issuedBy);
      Append3(old(buf), EncodeScope(r.scope), EncodeI64(r.createdAtMs), EncodeStr(r.issuedBy));
    }

    method PutRecord(r: TokenRecord)
      modifies this
      ensures buf == old(buf) + Encode(r)
    {
      PutStr(r.id);
      PutSlice(r.verifier);
      PutTail(r);
      Append3(old(buf), EncodeStr(r.id), r.verifier, EncodeTail(r));
    }
  }

  method EncodeRecord(r: TokenRecord) returns (bytes: Str)
    ensures bytes == Encode(r)
  {
    var w := new Writer();
    w.PutRecord(r);
    bytes := w.buf;
  }

  lemma {:induction false} ListedDistinct<T>(all: seq<T>, s: set<T>)
    requires NoDuplicates(all)
    ensures NoDuplicates(Listed(all, s))
    decreases |all|
  {
    if all != [] {
      var init, last := all[..|all| - 1], all[|all| - 1];
      ListedDistinct(init, s);
      ListedElements(init, s);
      assert last in Listed(init, s) <==> last in Elements(Listed(init, s));
      assert last !in Elements(init);
    }
  }

  lemma {:induction false} DistinctCount<T>(xs: seq<T>)
    requires NoDuplicates(xs)
    ensures |Elements(xs)| == |xs|
    decreases |xs|
  {
    if xs != [] {
      var init, last := xs[..|xs| - 1], xs[|xs| - 1];
      DistinctCount(init);
      assert xs == init + [last];
      ElementsConcat(init, [last]);
      assert Elements([last]) == {last};
    }
  }

  lemma OperationsCounted(ops: set<Operation>)
    ensures |Listed(OPERATIONS, ops)| == |ops|
  {
    OperationsReadBack(ops, []);
    ListedDistinct(OPERATIONS, ops);
    DistinctCount(Listed(OPERATIONS, ops));
  }

  lemma AudiencesCounted(audiences: set<Audience>)
    ensures |Listed(AUDIENCES, audiences)| == |audiences|
  {
    AudiencesReadBack(audiences, []);
    ListedDistinct(AUDIENCES, audiences);
    DistinctCount(Listed(AUDIENCES, audiences));
  }

  // --------------------------------------------------------------- decoding

  /** The decoder got what the parse says, and stands where it says; after an error, anywhere. */
  ghost predicate Got<T>(spec: Parsed<T>, r: Result<T, CodecError>, buf: Str) {
    match spec
    case Ok(t) => r == Ok(t.value) && buf == t.rest
    case Err(e) => r == Err(e)
  }

  class Reader {
    var buf: Str

    constructor (bytes: Str)
      ensures buf == bytes
    {
      buf := bytes;
    }

    method GetU8() returns (r: Result<byte, CodecError>)
      modifies this
      ensures Got(ParseU8(old(buf)), r, buf)
    {
      if |buf| < 1 {
        return Err(Malformed);
      }
      r := Ok(buf[0]);
      buf := buf[1..];
    }

    method GetI32() returns (r: Result<int, CodecError>)
      modifies this
      ensures Got(ParseI32(old(buf)), r, buf)
    {
      if |buf| < 4 {
        return Err(Malformed);
      }
      var x := FromBigEndian(buf[..4]);
      r := Ok(if x < TWO_31 then x else x - TWO_32);
      buf := buf[4..];
    }

    method GetI64() returns (r: Result<int, CodecError>)
      modifies this
      ensures Got(ParseI64(old(buf)), r, buf)
    {
      if |buf| < 8 {
        return Err(Malformed);
      }
      var x := FromBigEndian(buf[..8]);
      r := Ok(if x < TWO_63 then x else x - TWO_64);
      buf := buf[8..];
    }

    method GetBool() returns (r: Result<bool, CodecError>)
      modifies this
      ensures Got(ParseBool(old(buf)), r, buf)
    {
      var b :- GetU8();
      return Ok(b == 1);
    }

    method GetStr() returns (r: Result<Str, CodecError>)
      modifies this
      ensures Got(ParseStr(old(buf)), r, buf)
    {
      var n :- GetI32();
      if n < 0 || |buf| < n || !Utf8(buf[..n]) {
        return Err(Malformed);
      }
      r := Ok(buf[..n]);
      buf := buf[n..];
    }

    method GetVerifier() returns (r: Result<Str, CodecError>)
      modifies this
      ensures Got(ParseVerifier(old(buf)), r, buf)
    {
      if |buf| < VERIFIER_LEN {
        return Err(Malformed);
      }
      r := Ok(buf[..VERIFIER_LEN]);
      buf := buf[VERIFIER_LEN..];
    }

    method GetMatcher() returns (r: Result<Matcher, CodecError>)
      modifies this
      ensures Got(ParseMatcher(old(buf)), r, buf)
    {
      var tag :- GetU8();
      if tag == 1 {
        var name :- GetStr();
        return Ok(Exact(name));
      } else if tag == 2 {
        var prefix :- GetStr();
        return Ok(Prefix(prefix));
      } else {
        return Err(Malformed);
      }
    }

    method GetMatchers(count: nat) returns (r: Result<ResourceSet, CodecError>)
      modifies this
      ensures Got(ParseMany(ParseMatcher, count, old(buf)), r, buf)
    {
      ghost var start := buf;
      var matchers: ResourceSet := [];
      for i := 0 to count
        invariant ParseMany(ParseMatcher, i, start) == Ok(Taken(matchers, buf))
      {
        var m := GetMatcher();
        if m.Err? {
          FailureStays(ParseMatcher, i + 1, count, start);
          return Err(Malformed);
        }
        matchers := matchers + [m.value];
      }
      return Ok(matchers);
    }

    method GetResourceSet() returns (r: Result<ResourceSet, CodecError>)
      modifies this
      ensures Got(ParseList(ParseMatcher, old(buf)), r, buf)
    {
      var count :- GetI32();
      if count < 0 {
        return Err(Malformed);
      }
      r := GetMatchers(count);
    }

    method GetOperations(count: nat) returns (r: Result<set<Operation>, CodecError>)
      modifies this
      ensures Got(AsSet(ParseMany(ParseOperation, count, old(buf))), r, buf)
    {
      ghost var start := buf;
      ghost var listed: seq<Operation> := [];
      var ops: set<Operation> := {};
      for i := 0 to count
        invariant ParseMany(ParseOperation, i, start) == Ok(Taken(listed, buf)) && ops == Elements(listed)
      {
        var tag := GetU8();
        var x := if tag.Err? then Err(Malformed) else OperationFromTag(tag.value);
        if x.Err? {
          FailureStays(ParseOperation, i + 1, count, start);
          return Err(Malformed);
        }
        ElementsConcat(listed, [x.value]);
        ops := ops + {x.value};
        listed := listed + [x.value];
      }
      return Ok(ops);
    }

    method GetOperationSet() returns (r: Result<set<Operation>, CodecError>)
      modifies this
      ensures Got(AsSet(ParseList(ParseOperation, old(buf))), r, buf)
    {
      var count :- GetI32();
      if count < 0 {
        return Err(Malformed);
      }
      r := GetOperations(count);
    }

    method GetAudiences(count: nat) returns (r: Result<set<Audience>, CodecError>)
      modifies this
      ensures Got(AsSet(ParseMany(ParseAudience, count, old(buf))), r, buf)
    {
      ghost var start := buf;
      ghost var listed: seq<Audience> := [];
      var audiences: set<Audience> := {};
      for i := 0 to count
        invariant ParseMany(ParseAudience, i, start) == Ok(Taken(listed, buf)) && audiences == Elements(listed)
      {
        var tag := GetU8();
        var x := if tag.Err? then Err(Malformed) else AudienceFromTag(tag.value);
        if x.Err? {
          FailureStays(ParseAudience, i + 1, count, start);
          return Err(Malformed);
        }
        ElementsConcat(listed, [x.value]);
        audiences := audiences + {x.value};
        listed := listed + [x.value];
      }
      return Ok(audiences);
    }

    method GetAudienceSet() returns (r: Result<set<Audience>, CodecError>)
      modifies this
      ensures Got(AsSet(ParseList(ParseAudience, old(buf))), r, buf)
    {
      var count :- GetI32();
      if count < 0 {
        return Err(Malformed);
      }
      r := GetAudiences(count);
    }

    method GetNames() returns (r: Result<NameSets, CodecError>)
      modifies this
      ensures Got(ParseNames(old(buf)), r, buf)
    {
      var streams :- GetResourceSet();
      var tokens :- GetResourceSet();
      var groups :- GetResourceSet();
      return Ok(NameSets(streams, tokens, groups));
    }

    method GetReadWrite() returns (r: Result<ReadWrite, CodecError>)
      modifies this
      ensures Got(ParseReadWrite(old(buf)), r, buf)
    {
      var read :- GetBool();
      var write :- GetBool();
      return Ok(ReadWrite(read, write));
    }

    method GetAccess() returns (r: Result<Access, CodecError>)
      modifies this
      ensures Got(ParseAccess(old(buf)), r, buf)
    {
      var stream :- GetReadWrite();
      var tokens :- GetReadWrite();
      var group :- GetReadWrite();
      var admin :- GetReadWrite();
      return Ok(Access(stream, tokens, group, admin));
    }

    method GetRights() returns (r: Result<Rights, CodecError>)
      modifies this
      ensures Got(ParseRights(old(buf)), r, buf)
    {
      var access :- GetAccess();
      var ops :- GetOperationSet();
      var audiences :- GetAudienceSet();
      return Ok(Rights(access, ops, audiences));
    }

    method GetExpiry() returns (r: Result<Option<int>, CodecError>)
      modifies this
      ensures Got(ParseExpiry(old(buf)), r, buf)
    {
      var flag :- GetBool();
      var raw :- GetI64();
      return Ok(if flag then Some(raw) else None);
    }

    method GetScope() returns (r: Result<Scope, CodecError>)
      modifies this
      ensures Got(ParseScope(old(buf)), r, buf)
    {
      var n :- GetNames();
      var rights :- GetRights();
      var auto :- GetBool();
      var expiry :- GetExpiry();
      return Ok(Scope(n.streams, n.tokens, n.groups, rights.access, rights.ops, rights.audiences, auto, expiry));
    }

    method GetTail(id: Str, verifier: Str) returns (r: Result<TokenRecord, CodecError>)
      modifies this
      ensures Got(ParseTail(id, verifier, old(buf)), r, buf)
    {
      var scope :- GetScope();
      var created :- GetI64();
      var issuedBy :- GetStr();
      return Ok(TokenRecord(id, verifier, scope, created, issuedBy));
    }
  }

  /** Reads one record and refuses bytes left over. Any bytes at all may be given. */
  method DecodeRecord(bytes: Str) returns (r: Result<TokenRecord, CodecError>)
    ensures r == Decode(bytes)
  {
    var reader := new Reader(bytes);
    var id :- reader.GetStr();
    if !ValidId(id) {
      return Err(Malformed);
    }
    var verifier :- reader.GetVerifier();
    var record :- reader.GetTail(id, verifier);
    if reader.buf != [] {
      return Err(Malformed);
    }
    return Ok(record);
  }

  ghost function AsSet<T>(p: Parsed<seq<T>>): Parsed<set<T>> {
    match p
    case Ok(t) => Ok(Taken(Elements(t.value), t.rest))
    case Err(e) => Err(e)
  }

  lemma {:induction false} FailureStays<T>(item: Str -> Parsed<T>, i: nat, n: nat, b: Str)
    requires i <= n && ParseMany(item, i, b).Err?
    ensures ParseMany(item, n, b) == Err(Malformed)
    decreases n - i
  {
    if i < n {
      FailureStays(item, i + 1, n, b);
    } else {
      assert ParseMany(item, i, b).error == Malformed;
    }
  }
}
