/** A page of a sorted map: start somewhere, stop at the first key without the prefix, stop at the limit.
    It is the filter it stands for, and following pages finds every match once. */
module RangeScan {
  import opened Prelude
  import opened Sorting

  // ----------------------------------------------------- byte-string order

  predicate StrLeq(a: Str, b: Str) {
    a == [] || (b != [] && (a[0] < b[0] || (a[0] == b[0] && StrLeq(a[1..], b[1..]))))
  }

  lemma {:induction false} StrTotal(a: Str, b: Str)
    ensures StrLeq(a, b) || StrLeq(b, a)
    ensures StrLeq(a, b) && StrLeq(b, a) ==> a == b
    decreases |a|
  {
    if a != [] && b != [] {
      StrTotal(a[1..], b[1..]);
      assert a == [a[0]] + a[1..] && b == [b[0]] + b[1..];
    }
  }

  lemma {:induction false} StrTransitive(a: Str, b: Str, c: Str)
    requires StrLeq(a, b) && StrLeq(b, c)
    ensures StrLeq(a, c)
    decreases |a|
  {
    if a != [] && a[0] == b[0] && b[0] == c[0] { StrTransitive(a[1..], b[1..], c[1..]); }
  }

  lemma StrOrder()
    ensures TotalOrder(StrLeq)
  {
    forall a, b ensures (StrLeq(a, b) || StrLeq(b, a)) && (StrLeq(a, b) && StrLeq(b, a) ==> a == b) { StrTotal(a, b); }
    forall a, b, c | StrLeq(a, b) && StrLeq(b, c) ensures StrLeq(a, c) { StrTransitive(a, b, c); }
  }

  /** A prefix sorts first among its extensions, and between it and an extension lie only extensions. */
  lemma {:induction false} PrefixInterval(p: Str, x: Str, y: Str)
    requires p <= y
    ensures StrLeq(p, y)
    ensures StrLeq(p, x) && StrLeq(x, y) ==> p <= x
    decreases |p|
  {
    if p != [] {
      assert p[1..] <= y[1..];
      PrefixInterval(p[1..], if x == [] then [] else x[1..], y[1..]);
      if StrLeq(p, x) && StrLeq(x, y) {
        assert p[1..] <= x[1..] && x == [x[0]] + x[1..] && p == [p[0]] + p[1..];
      }
    }
  }

  // -------------------------------------------------------------- the scan

  datatype Bound = Excluded(key: Str) | Included(key: Str)

  predicate Within(from: Bound, id: Str) {
    match from
    case Excluded(k) => StrLeq(k, id) && id != k
    case Included(k) => StrLeq(k, id)
  }

  function StartOf(prefix: Str, after: Option<Str>): Bound {
    if after.Some? && StrLeq(prefix, after.value) then Excluded(after.value) else Included(prefix)
  }

  function Keys(ids: set<Str>): (q: seq<Str>)
    ensures forall x :: x in q <==> x in ids
    ensures NoDuplicates(q) && Ordered(StrLeq, q)
  {
    StrOrder();
    Sort(StrLeq, ids)
  }

  function RangeFrom(q: seq<Str>, from: Bound): seq<Str> {
    if q == [] then []
    else if Within(from, q[0]) then q
    else RangeFrom(q[1..], from)
  }

  function TakeWhile(q: seq<Str>, prefix: Str): seq<Str> {
    if q == [] || !(prefix <= q[0]) then []
    else [q[0]] + TakeWhile(q[1..], prefix)
  }

  function Take(q: seq<Str>, n: nat): seq<Str> {
    if |q| <= n then q else q[..n]
  }

  /** The page: a bounded walk over the sorted keys. */
  function Page(ids: set<Str>, prefix: Str, after: Option<Str>, limit: nat): seq<Str> {
    Take(TakeWhile(RangeFrom(Keys(ids), StartOf(prefix, after)), prefix), limit)
  }

  // ------------------------------------------------------- what it stands for

  predicate Past(after: Option<Str>, id: Str) {
    after.None? || (StrLeq(after.value, id) && id != after.value)
  }

  predicate Wanted(prefix: Str, after: Option<Str>, id: Str) {
    prefix <= id && Past(after, id)
  }

  function Filter(q: seq<Str>, prefix: Str, after: Option<Str>): seq<Str> {
    if q == [] then []
    else (if Wanted(prefix, after, q[0]) then [q[0]] else []) + Filter(q[1..], prefix, after)
  }

  lemma WantedIsWithin(prefix: Str, after: Option<Str>, id: Str)
    ensures Wanted(prefix, after, id) <==> prefix <= id && Within(StartOf(prefix, after), id)
  {
    if prefix <= id { PrefixInterval(prefix, id, id); }
    if after.Some? {
      StrTotal(prefix, after.value);
      StrTotal(after.value, id);
      if StrLeq(after.value, prefix) && StrLeq(prefix, id) { StrTransitive(after.value, prefix, id); }
    }
  }

  lemma WithinUpward(from: Bound, x: Str, y: Str)
    requires Within(from, x) && StrLeq(x, y)
    ensures Within(from, y)
  {
    StrTransitive(from.key, x, y);
    StrTotal(from.key, x);
    StrTotal(x, y);
  }

  /** Once past the start, the matches are exactly the keys up to the first without the prefix. */
  lemma {:induction false} WalkIsFilter(q: seq<Str>, prefix: Str, after: Option<Str>)
    requires Ordered(StrLeq, q) && forall i :: 0 <= i < |q| ==> Within(StartOf(prefix, after), q[i])
    ensures TakeWhile(q, prefix) == Filter(q, prefix, after)
    decreases |q|
  {
    if q != [] {
      WantedIsWithin(prefix, after, q[0]);
      WalkIsFilter(q[1..], prefix, after);
      if !(prefix <= q[0]) {
        NothingFollows(q, prefix, after);
      }
    }
  }

  lemma {:induction false} NothingFollows(q: seq<Str>, prefix: Str, after: Option<Str>)
    requires q != [] && Ordered(StrLeq, q) && !(prefix <= q[0]) && Within(StartOf(prefix, after), q[0])
    ensures Filter(q, prefix, after) == []
    decreases |q|
  {
    if |q| > 1 {
      StartIsPastPrefix(prefix, after, q[0]);
      if prefix <= q[1] { PrefixInterval(prefix, q[0], q[1]); }
      WithinUpward(StartOf(prefix, after), q[0], q[1]);
      NothingFollows(q[1..], prefix, after);
    } else {
      assert q[1..] == [];
    }
  }

  lemma StartIsPastPrefix(prefix: Str, after: Option<Str>, id: Str)
    requires Within(StartOf(prefix, after), id)
    ensures StrLeq(prefix, id)
  {
    if StartOf(prefix, after).Excluded? { StrTransitive(prefix, after.value, id); }
  }

  lemma {:induction false} ScanIsFilter(q: seq<Str>, prefix: Str, after: Option<Str>)
    requires Ordered(StrLeq, q)
    ensures TakeWhile(RangeFrom(q, StartOf(prefix, after)), prefix) == Filter(q, prefix, after)
    decreases |q|
  {
    if q != [] {
      WantedIsWithin(prefix, after, q[0]);
      if Within(StartOf(prefix, after), q[0]) {
        forall i | 0 <= i < |q| ensures Within(StartOf(prefix, after), q[i]) {
          if i > 0 { WithinUpward(StartOf(prefix, after), q[0], q[i]); }
        }
        WalkIsFilter(q, prefix, after);
      } else {
        ScanIsFilter(q[1..], prefix, after);
      }
    }
  }

  /** A page is the first `limit` keys, in order, that have the prefix and come after the given one,
      wherever that one lies. */
  lemma PageIsFilter(ids: set<Str>, prefix: Str, after: Option<Str>, limit: nat)
    ensures Page(ids, prefix, after, limit) == Take(Filter(Keys(ids), prefix, after), limit)
  {
    ScanIsFilter(Keys(ids), prefix, after);
  }

  lemma {:induction false} FilterMembers(q: seq<Str>, prefix: Str, after: Option<Str>, id: Str)
    ensures id in Filter(q, prefix, after) <==> id in q && Wanted(prefix, after, id)
    decreases |q|
  {
    if q != [] {
      FilterMembers(q[1..], prefix, after, id);
      assert q == [q[0]] + q[1..];
    }
  }

  lemma PageMembers(ids: set<Str>, prefix: Str, after: Option<Str>, limit: nat)
    ensures forall i :: 0 <= i < |Page(ids, prefix, after, limit)| ==> Page(ids, prefix, after, limit)[i] in ids
  {
    PageIsFilter(ids, prefix, after, limit);
    var q := Filter(Keys(ids), prefix, after);
    forall i | 0 <= i < |q| ensures q[i] in ids { FilterMembers(Keys(ids), prefix, after, q[i]); }
  }

  lemma {:induction false} FilterOrdered(q: seq<Str>, prefix: Str, after: Option<Str>)
    requires Ordered(StrLeq, q) && NoDuplicates(q)
    ensures Ordered(StrLeq, Filter(q, prefix, after)) && NoDuplicates(Filter(q, prefix, after))
    decreases |q|
  {
    if q != [] {
      FilterOrdered(q[1..], prefix, after);
      forall id | id in Filter(q[1..], prefix, after) ensures StrLeq(q[0], id) && id != q[0] {
        FilterMembers(q[1..], prefix, after, id);
      }
    }
  }

  // ----------------------------------------------------------------- paging

  /** Every match, in order. */
  function Matches(ids: set<Str>, prefix: Str): seq<Str> {
    Filter(Keys(ids), prefix, None)
  }

  /** A key before `x` is not past it. */
  lemma HeadIsBefore(q: seq<Str>, prefix: Str, x: Str)
    requires q != [] && Ordered(StrLeq, q) && NoDuplicates(q) && x in Filter(q[1..], prefix, None)
    ensures Filter(q, prefix, Some(x)) == Filter(q[1..], prefix, Some(x))
  {
    FilterMembers(q[1..], prefix, None, x);
    var i :| 0 <= i < |q| - 1 && q[1..][i] == x;
    assert StrLeq(q[0], q[i + 1]) && q[0] != q[i + 1];
    StrTotal(q[0], x);
  }

  /** Filtering past a match leaves what follows it. */
  lemma {:induction false} FilterPast(q: seq<Str>, prefix: Str, k: nat)
    requires Ordered(StrLeq, q) && NoDuplicates(q) && k < |Filter(q, prefix, None)|
    ensures Filter(q, prefix, Some(Filter(q, prefix, None)[k])) == Filter(q, prefix, None)[k + 1..]
    decreases |q|
  {
    var rest := Filter(q[1..], prefix, None);
    var here := if prefix <= q[0] then 1 else 0;
    assert Filter(q, prefix, None) == (if here == 1 then [q[0]] else []) + rest;
    if k < here {
      AllPast(q[1..], prefix, q[0]);
    } else {
      FilterPast(q[1..], prefix, k - here);
      HeadIsBefore(q, prefix, rest[k - here]);
    }
  }

  lemma {:induction false} AllPast(q: seq<Str>, prefix: Str, x: Str)
    requires forall i :: 0 <= i < |q| ==> StrLeq(x, q[i]) && q[i] != x
    ensures Filter(q, prefix, Some(x)) == Filter(q, prefix, None)
    decreases |q|
  {
    if q != [] { AllPast(q[1..], prefix, x); }
  }

  /** The page after the match at `k` holds the next `limit` matches. */
  lemma NextPage(ids: set<Str>, prefix: Str, k: nat, limit: nat)
    requires k < |Matches(ids, prefix)|
    ensures Page(ids, prefix, Some(Matches(ids, prefix)[k]), limit) == Take(Matches(ids, prefix)[k + 1..], limit)
  {
    PageIsFilter(ids, prefix, Some(Matches(ids, prefix)[k]), limit);
    FilterPast(Keys(ids), prefix, k);
  }

  lemma PageExtends(m: seq<Str>, n: nat, limit: nat)
    requires n <= |m|
    ensures var page := Take(m[n..], limit);
            n + |page| <= |m| && m[..n] + page == m[..n + |page|] && (page != [] ==> page[|page| - 1] == m[n + |page| - 1])
            && (page == [] && limit > 0 ==> n == |m|)
  {
  }

  lemma MatchesAre(ids: set<Str>, prefix: Str)
    ensures NoDuplicates(Matches(ids, prefix))
    ensures forall id :: id in Matches(ids, prefix) <==> id in ids && prefix <= id
  {
    FilterOrdered(Keys(ids), prefix, None);
    forall id ensures id in Matches(ids, prefix) <==> id in ids && prefix <= id {
      FilterMembers(Keys(ids), prefix, None, id);
    }
  }

  /** `all` is the matches up to `page`, and `page` the ones that follow, as many as fit. */
  ghost predicate Read(ids: set<Str>, prefix: Str, limit: nat, all: seq<Str>, page: seq<Str>) {
    var m := Matches(ids, prefix);
    |all| <= |m| && all == m[..|all|] && page == Take(m[|all|..], limit)
  }

  lemma ReadFirst(ids: set<Str>, prefix: Str, limit: nat)
    ensures Read(ids, prefix, limit, [], Page(ids, prefix, None, limit))
  {
    PageIsFilter(ids, prefix, None, limit);
    assert Matches(ids, prefix)[0..] == Matches(ids, prefix);
  }

  lemma ReadNext(ids: set<Str>, prefix: Str, limit: nat, all: seq<Str>, page: seq<Str>)
    requires Read(ids, prefix, limit, all, page) && page != []
    ensures Read(ids, prefix, limit, all + page, Page(ids, prefix, Some(page[|page| - 1]), limit))
    ensures |all| < |all + page| <= |Matches(ids, prefix)|
  {
    PageExtends(Matches(ids, prefix), |all|, limit);
    NextPage(ids, prefix, |all| + |page| - 1, limit);
  }

  lemma ReadAll(ids: set<Str>, prefix: Str, limit: nat, all: seq<Str>)
    requires Read(ids, prefix, limit, all, []) && limit > 0
    ensures all == Matches(ids, prefix)
  {
    PageExtends(Matches(ids, prefix), |all|, limit);
  }

  /** Asking for page after page, each from the last key of the one before, until one is empty: the pages
      put together are every match, each once and in order. */
  method AllPages(ids: set<Str>, prefix: Str, limit: nat) returns (all: seq<Str>)
    requires limit > 0
    ensures all == Matches(ids, prefix)
    ensures NoDuplicates(all) && forall id :: id in all <==> id in ids && prefix <= id
  {
    all := [];
    ReadFirst(ids, prefix, limit);
    var page := Page(ids, prefix, None, limit);
    while page != []
      invariant Read(ids, prefix, limit, all, page)
      decreases |Matches(ids, prefix)| - |all|
    {
      ReadNext(ids, prefix, limit, all, page);
      all := all + page;
      page := Page(ids, prefix, Some(page[|page| - 1]), limit);
    }
    ReadAll(ids, prefix, limit, all);
    MatchesAre(ids, prefix);
  }
}
