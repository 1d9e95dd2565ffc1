/** The encoding frames itself: how many bytes a record takes is decided by those bytes alone, so more
    bytes after it change nothing it says, and no proper prefix of it says anything. */
module TokenFraming {
  import opened Prelude
  import opened TokenCodec

  /** The same value, with the extra bytes left over. */
  ghost predicate Extends<T>(p: Parsed<T>, q: Parsed<T>, x: Str) {
    p.Ok? ==> q == Ok(Taken(p.value.value, p.value.rest + x))
  }

  lemma U8Extends(b: Str, x: Str)
    ensures Extends(ParseU8(b), ParseU8(b + x), x)
  {
    if |b| >= 1 { assert (b + x)[1..] == b[1..] + x; }
  }

  lemma I32Extends(b: Str, x: Str)
    ensures Extends(ParseI32(b), ParseI32(b + x), x)
  {
    if |b| >= 4 { assert (b + x)[..4] == b[..4] && (b + x)[4..] == b[4..] + x; }
  }

  lemma I64Extends(b: Str, x: Str)
    ensures Extends(ParseI64(b), ParseI64(b + x), x)
  {
    if |b| >= 8 { assert (b + x)[..8] == b[..8] && (b + x)[8..] == b[8..] + x; }
  }

  lemma StrExtends(b: Str, x: Str)
    ensures Extends(ParseStr(b), ParseStr(b + x), x)
  {
    I32Extends(b, x);
    if ParseStr(b).Ok? {
      var n := ParseI32(b).value;
      assert (n.rest + x)[..n.value] == n.rest[..n.value];
      assert (n.rest + x)[n.value..] == n.rest[n.value..] + x;
    }
  }

  lemma VerifierExtends(b: Str, x: Str)
    ensures Extends(ParseVerifier(b), ParseVerifier(b + x), x)
  {
    if |b| >= VERIFIER_LEN {
      assert (b + x)[..VERIFIER_LEN] == b[..VERIFIER_LEN];
      assert (b + x)[VERIFIER_LEN..] == b[VERIFIER_LEN..] + x;
    }
  }

  lemma MatcherExtends(b: Str, x: Str)
    ensures Extends(ParseMatcher(b), ParseMatcher(b + x), x)
  {
    U8Extends(b, x);
    if ParseU8(b).Ok? { StrExtends(ParseU8(b).value.rest, x); }
  }

  lemma OperationExtends(b: Str, x: Str)
    ensures Extends(ParseOperation(b), ParseOperation(b + x), x)
  {
    U8Extends(b, x);
  }

  lemma AudienceExtends(b: Str, x: Str)
    ensures Extends(ParseAudience(b), ParseAudience(b + x), x)
  {
    U8Extends(b, x);
  }

  ghost predicate ItemExtends<T>(item: Str -> Parsed<T>) {
    forall b: Str, x: Str :: Extends(item(b), item(b + x), x)
  }

  lemma {:induction false} ManyExtend<T>(item: Str -> Parsed<T>, n: nat, b: Str, x: Str)
    requires ItemExtends(item)
    ensures Extends(ParseMany(item, n, b), ParseMany(item, n, b + x), x)
    decreases n
  {
    if n > 0 {
      ManyExtend(item, n - 1, b, x);
      if ParseMany(item, n, b).Ok? {
        var before := ParseMany(item, n - 1, b).value;
        assert Extends(item(before.rest), item(before.rest + x), x);
      }
    }
  }

  lemma ListExtends<T>(item: Str -> Parsed<T>, b: Str, x: Str)
    requires ItemExtends(item)
    ensures Extends(ParseList(item, b), ParseList(item, b + x), x)
  {
    I32Extends(b, x);
    if ParseI32(b).Ok? && ParseI32(b).value.value >= 0 {
      ManyExtend(item, ParseI32(b).value.value, ParseI32(b).value.rest, x);
    }
  }

  lemma SetExtends(b: Str, x: Str)
    ensures Extends(ParseList(ParseMatcher, b), ParseList(ParseMatcher, b + x), x)
  {
    forall c: Str, y: Str ensures Extends(ParseMatcher(c), ParseMatcher(c + y), y) { MatcherExtends(c, y); }
    ListExtends(ParseMatcher, b, x);
  }

  lemma OperationsExtend(b: Str, x: Str)
    ensures Extends(ParseList(ParseOperation, b), ParseList(ParseOperation, b + x), x)
  {
    forall c: Str, y: Str ensures Extends(ParseOperation(c), ParseOperation(c + y), y) { OperationExtends(c, y); }
    ListExtends(ParseOperation, b, x);
  }

  lemma AudiencesExtend(b: Str, x: Str)
    ensures Extends(ParseList(ParseAudience, b), ParseList(ParseAudience, b + x), x)
  {
    forall c: Str, y: Str ensures Extends(ParseAudience(c), ParseAudience(c + y), y) { AudienceExtends(c, y); }
    ListExtends(ParseAudience, b, x);
  }

  lemma NamesExtend(b: Str, x: Str)
    ensures Extends(ParseNames(b), ParseNames(b + x), x)
  {
    if ParseNames(b).Ok? {
      var streams := ParseList(ParseMatcher, b).value;
      var tokens := ParseList(ParseMatcher, streams.rest).value;
      SetExtends(b, x);
      SetExtends(streams.rest, x);
      SetExtends(tokens.rest, x);
    }
  }

  lemma ReadWriteExtends(b: Str, x: Str)
    ensures Extends(ParseReadWrite(b), ParseReadWrite(b + x), x)
  {
    U8Extends(b, x);
    if ParseBool(b).Ok? { U8Extends(ParseBool(b).value.rest, x); }
  }

  lemma AccessExtends(b: Str, x: Str)
    ensures Extends(ParseAccess(b), ParseAccess(b + x), x)
  {
    if ParseAccess(b).Ok? {
      var stream := ParseReadWrite(b).value;
      var tokens := ParseReadWrite(stream.rest).value;
      var group := ParseReadWrite(tokens.rest).value;
      ReadWriteExtends(b, x);
      ReadWriteExtends(stream.rest, x);
      ReadWriteExtends(tokens.rest, x);
      ReadWriteExtends(group.rest, x);
    }
  }

  lemma RightsExtend(b: Str, x: Str)
    ensures Extends(ParseRights(b), ParseRights(b + x), x)
  {
    if ParseRights(b).Ok? {
      var access := ParseAccess(b).value;
      var ops := ParseList(ParseOperation, access.rest).value;
      AccessExtends(b, x);
      OperationsExtend(access.rest, x);
      AudiencesExtend(ops.rest, x);
    }
  }

  lemma BoolExtends(b: Str, x: Str)
    ensures Extends(ParseBool(b), ParseBool(b + x), x)
  {
    U8Extends(b, x);
  }

  lemma ExpiryExtends(b: Str, x: Str)
    ensures Extends(ParseExpiry(b), ParseExpiry(b + x), x)
  {
    BoolExtends(b, x);
    if ParseBool(b).Ok? { I64Extends(ParseBool(b).value.rest, x); }
  }

  lemma ScopeExtends(b: Str, x: Str)
    ensures Extends(ParseScope(b), ParseScope(b + x), x)
  {
    if ParseScope(b).Ok? {
      var names := ParseNames(b).value;
      var rights := ParseRights(names.rest).value;
      var auto := ParseBool(rights.rest).value;
      NamesExtend(b, x);
      RightsExtend(names.rest, x);
      BoolExtends(rights.rest, x);
      ExpiryExtends(auto.rest, x);
    }
  }

  lemma TailExtends(id: Str, verifier: Str, b: Str, x: Str)
    ensures Extends(ParseTail(id, verifier, b), ParseTail(id, verifier, b + x), x)
  {
    if ParseTail(id, verifier, b).Ok? {
      var scope := ParseScope(b).value;
      var created := ParseI64(scope.rest).value;
      ScopeExtends(b, x);
      I64Extends(scope.rest, x);
      StrExtends(created.rest, x);
    }
  }

  lemma RecordExtends(b: Str, x: Str)
    ensures Extends(ParseRecord(b), ParseRecord(b + x), x)
  {
    if ParseRecord(b).Ok? {
      var id := ParseStr(b).value;
      var verifier := ParseVerifier(id.rest).value;
      StrExtends(b, x);
      VerifierExtends(id.rest, x);
      TailExtends(id.value, verifier.value, verifier.rest, x);
    }
  }

  /** Whatever bytes decode at all: no proper prefix of them decodes, and no extension. */
  lemma DecodableIsPrefixFree(b: Str, x: Str)
    requires Decode(b).Ok? && x != []
    ensures Decode(b + x).Err?
    ensures forall n :: 0 <= n < |b| ==> Decode(b[..n]).Err?
  {
    RecordExtends(b, x);
    forall n | 0 <= n < |b| ensures Decode(b[..n]).Err? {
      assert b == b[..n] + b[n..];
      RecordExtends(b[..n], b[n..]);
    }
  }

  /** In particular for what the encoder writes: it decodes to its record and nothing next to it decodes. */
  lemma EncodingIsSelfDelimiting(r: TokenRecord, x: Str)
    requires StorableRecord(r) && ValidId(r.id) && x != []
    ensures Decode(Encode(r)) == Ok(r) && Decode(Encode(r) + x).Err?
    ensures forall n :: 0 <= n < |Encode(r)| ==> Decode(Encode(r)[..n]).Err?
  {
    DecodeEncodeIff(r);
    DecodableIsPrefixFree(Encode(r), x);
  }
}
