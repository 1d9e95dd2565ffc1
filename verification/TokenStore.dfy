/** The store of token records: conditional writes, so that a race of issuing and revoking never touches
    another generation of the same id, and ordered pages. */
module TokenStore {
  import opened Prelude
  import opened TokenCodec
  import opened RangeScan

  datatype StoreOp = PutIfAbsent(record: TokenRecord) | DeleteIf(id: Str, expected: Str)

  /** The records after an operation, and whether it wrote. */
  function Perform(records: map<Str, TokenRecord>, op: StoreOp): (map<Str, TokenRecord>, Result<bool, CodecError>) {
    match op
    case PutIfAbsent(record) =>
      if !ValidId(record.id) then (records, Err(Malformed))
      else if record.id in records then (records, Ok(false))
      else (records[record.id := record], Ok(true))
    case DeleteIf(id, expected) =>
      if id in records && records[id].verifier == expected then (records - {id}, Ok(true)) else (records, Ok(false))
  }

  function PerformAll(records: map<Str, TokenRecord>, ops: seq<StoreOp>): map<Str, TokenRecord>
    decreases |ops|
  {
    if ops == [] then records else PerformAll(Perform(records, ops[0]).0, ops[1..])
  }

  predicate Keyed(records: map<Str, TokenRecord>) {
    forall id :: id in records ==> records[id].id == id && ValidId(id)
  }

  class MemoryTokenStore {
    var records: map<Str, TokenRecord>

    constructor ()
      ensures records == map[]
    {
      records := map[];
    }

    method Put(record: TokenRecord) returns (r: Result<bool, CodecError>)
      requires Keyed(records)
      modifies this
      ensures Keyed(records) && (records, r) == Perform(old(records), PutIfAbsent(record))
    {
      if !(ID_MIN_LEN <= |record.id| <= ID_MAX_LEN) {
        return Err(Malformed);
      }
      if record.id in records {
        return Ok(false);
      }
      records := records[record.id := record];
      return Ok(true);
    }

    method Delete(id: Str, expected: Str) returns (r: Result<bool, CodecError>)
      requires Keyed(records)
      modifies this
      ensures Keyed(records) && (records, r) == Perform(old(records), DeleteIf(id, expected))
    {
      if id in records && records[id].verifier == expected {
        records := records - {id};
        return Ok(true);
      }
      return Ok(false);
    }

    /** The first `limit` records, by id, with the prefix and past `after`. */
    method ListPage(prefix: Str, after: Option<Str>, limit: nat) returns (page: seq<TokenRecord>)
      requires Keyed(records)
      ensures Lists(page, records, Take(Filter(Keys(records.Keys), prefix, after), limit))
    {
      var ids := Page(records.Keys, prefix, after, limit);
      PageIsFilter(records.Keys, prefix, after, limit);
      PageMembers(records.Keys, prefix, after, limit);
      page := Fetch(records, ids);
    }
  }

  method Fetch(records: map<Str, TokenRecord>, ids: seq<Str>) returns (page: seq<TokenRecord>)
    requires Keyed(records) && forall i :: 0 <= i < |ids| ==> ids[i] in records
    ensures Lists(page, records, ids)
  {
    page := [];
    for i := 0 to |ids|
      invariant Lists(page, records, ids[..i])
    {
      page := page + [records[ids[i]]];
    }
    assert ids[..|ids|] == ids;
  }

  /** These records, under these ids. */
  ghost predicate Lists(page: seq<TokenRecord>, records: map<Str, TokenRecord>, ids: seq<Str>) {
    |page| == |ids| && forall i :: 0 <= i < |ids| ==> ids[i] in records && page[i] == records[ids[i]] && page[i].id == ids[i]
  }

  /** A stored record stays as it is until somebody revokes that very credential: writers of the same id
      and revokers of another generation of it change nothing. */
  lemma {:induction false} RecordStandsUntilRevoked(records: map<Str, TokenRecord>, ops: seq<StoreOp>, id: Str)
    requires id in records && DeleteIf(id, records[id].verifier) !in ops
    ensures var after := PerformAll(records, ops); id in after && after[id] == records[id]
    decreases |ops|
  {
    if ops != [] {
      assert ops[0] in ops;
      RecordStandsUntilRevoked(Perform(records, ops[0]).0, ops[1..], id);
    }
  }

  /** Of any writes of one id with no revocation between, the first wins and the others say they did not. */
  lemma {:induction false} FirstWriteWins(records: map<Str, TokenRecord>, ops: seq<StoreOp>, record: TokenRecord)
    requires ValidId(record.id) && record.id in records && DeleteIf(record.id, records[record.id].verifier) !in ops
    ensures Perform(PerformAll(records, ops), PutIfAbsent(record)).1 == Ok(false)
  {
    RecordStandsUntilRevoked(records, ops, record.id);
  }

  /** A record is written exactly under an id of 1 to 96 bytes that is free; a record is removed exactly for
      whoever holds its verifier. Nothing else is touched, and the answer says whether something was. */
  lemma StoreAnswers(records: map<Str, TokenRecord>, record: TokenRecord, id: Str, expected: Str)
    ensures var (after, r) := Perform(records, PutIfAbsent(record));
            && (r == Ok(true) <==> 1 <= |record.id| <= 96 && record.id !in records)
            && (r.Err? <==> !(1 <= |record.id| <= 96))
            && after == if r == Ok(true) then records[record.id := record] else records
    ensures var (after, r) := Perform(records, DeleteIf(id, expected));
            && r.Ok? && (r.value <==> id in records && records[id].verifier == expected)
            && after == if r.value then records - {id} else records
  {
  }

  /** No write of a record under this id. */
  ghost predicate Unissued(ops: seq<StoreOp>, id: Str) {
    forall i :: 0 <= i < |ops| && ops[i].PutIfAbsent? ==> ops[i].record.id != id
  }

  lemma {:induction false} AbsentUntilIssued(records: map<Str, TokenRecord>, ops: seq<StoreOp>, id: Str)
    requires id !in records && Unissued(ops, id)
    ensures id !in PerformAll(records, ops)
    decreases |ops|
  {
    if ops != [] {
      assert ops[0].PutIfAbsent? ==> ops[0].record.id != id;
      assert Unissued(ops[1..], id) by { assert forall i :: 0 <= i < |ops| - 1 ==> ops[1..][i] == ops[i + 1]; }
      AbsentUntilIssued(Perform(records, ops[0]).0, ops[1..], id);
    }
  }

  /** A revoked token is gone, and stays so until a token is issued under its id again. */
  lemma RevokedIsGone(records: map<Str, TokenRecord>, id: Str, expected: Str, ops: seq<StoreOp>)
    requires Perform(records, DeleteIf(id, expected)).1 == Ok(true) && Unissued(ops, id)
    ensures id !in PerformAll(Perform(records, DeleteIf(id, expected)).0, ops)
  {
    AbsentUntilIssued(Perform(records, DeleteIf(id, expected)).0, ops, id);
  }
}
