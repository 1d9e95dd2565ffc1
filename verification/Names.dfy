/** Stream names: two spellings, slashes or dots, of one canonical form; and UTF-8, which says where a
    string may be cut. */
module Names {
  import opened Prelude

  const SLASH: byte := 47
  const DOT: byte := 46

  /** A leading slash, if there is one. */
  function Leading(s: Str): nat {
    if s != [] && s[0] == SLASH then 1 else 0
  }

  function Dots(s: Str): (d: Str)
    ensures |d| == |s|
  {
    seq(|s|, i requires 0 <= i < |s| => if s[i] == SLASH then DOT else s[i])
  }

  function Canonical(spelling: Str): Str {
    Dots(spelling[Leading(spelling)..])
  }

  predicate CanonicalEq(a: Str, b: Str) {
    Canonical(a) == Canonical(b)
  }

  /** Walks both spellings in step, building neither canonical form. */
  method CanonicalStartsWith(spelling: Str, prefix: Str) returns (yes: bool)
    ensures yes <==> Canonical(prefix) <= Canonical(spelling)
  {
    var i, j := Leading(spelling), Leading(prefix);
    while j < |prefix|
      invariant Leading(prefix) <= j <= |prefix| && i - Leading(spelling) == j - Leading(prefix) && i <= |spelling|
      invariant Dots(prefix[Leading(prefix)..j]) == Dots(spelling[Leading(spelling)..i])
    {
      if i == |spelling| {
        return false;
      }
      var expected := if prefix[j] == SLASH then DOT else prefix[j];
      var found := if spelling[i] == SLASH then DOT else spelling[i];
      if expected != found {
        assert Canonical(prefix)[j - Leading(prefix)] == expected && Canonical(spelling)[j - Leading(prefix)] == found;
        return false;
      }
      assert prefix[Leading(prefix)..j + 1] == prefix[Leading(prefix)..j] + [prefix[j]];
      assert spelling[Leading(spelling)..i + 1] == spelling[Leading(spelling)..i] + [spelling[i]];
      DotsConcat(prefix[Leading(prefix)..j], [prefix[j]]);
      DotsConcat(spelling[Leading(spelling)..i], [spelling[i]]);
      i, j := i + 1, j + 1;
    }
    assert prefix[Leading(prefix)..j] == prefix[Leading(prefix)..];
    assert spelling[Leading(spelling)..] == spelling[Leading(spelling)..i] + spelling[i..];
    DotsConcat(spelling[Leading(spelling)..i], spelling[i..]);
    return true;
  }

  /** What follows the prefix, cut from the spelling as given. */
  function StripCanonicalPrefix(spelling: Str, prefix: Str): (rest: Option<Str>)
    ensures rest.Some? <==> Canonical(prefix) <= Canonical(spelling)
    ensures rest.Some? ==> Canonical(prefix) + Dots(rest.value) == Canonical(spelling)
  {
    var p := Canonical(prefix);
    if p <= Canonical(spelling) then
      var at := Leading(spelling) + |p|;
      assert at <= |spelling|;
      assert spelling[Leading(spelling)..] == spelling[Leading(spelling)..at] + spelling[at..];
      DotsConcat(spelling[Leading(spelling)..at], spelling[at..]);
      Some(spelling[at..])
    else None
  }

  lemma DotsConcat(a: Str, b: Str)
    ensures Dots(a + b) == Dots(a) + Dots(b)
  {
  }

  /** Appending to a spelling appends to its canonical form, unless a first slash arrives that way. */
  lemma CanonicalConcat(a: Str, b: Str)
    requires a != [] || Leading(b) == 0
    ensures Canonical(a + b) == Canonical(a) + Dots(b)
  {
    if a == [] {
      assert a + b == b;
    } else {
      assert (a + b)[Leading(a)..] == a[Leading(a)..] + b;
      DotsConcat(a[Leading(a)..], b);
    }
  }

  // ------------------------------------------------- which spellings are one name

  /** A spelling without the slash it may begin with. */
  function Bare(s: Str): Str {
    if s != [] && s[0] == 47 then s[1..] else s
  }

  /** The same byte, or each a slash or a dot. */
  predicate Alike(a: byte, b: byte) {
    a == b || ((a == 46 || a == 47) && (b == 46 || b == 47))
  }

  /** One name continues another: bare, the one is as long or longer, and alike byte by byte. */
  lemma CanonicalPrefixIff(prefix: Str, spelling: Str)
    ensures Canonical(prefix) <= Canonical(spelling) <==>
            |Bare(prefix)| <= |Bare(spelling)| && forall i :: 0 <= i < |Bare(prefix)| ==> Alike(Bare(prefix)[i], Bare(spelling)[i])
  {
    var p, s, a, b := Canonical(prefix), Canonical(spelling), Bare(prefix), Bare(spelling);
    assert |p| == |a| && |s| == |b|;
    assert forall i :: 0 <= i < |a| ==> p[i] == if a[i] == 47 then 46 else a[i];
    assert forall i :: 0 <= i < |b| ==> s[i] == if b[i] == 47 then 46 else b[i];
    if p <= s {
      forall i | 0 <= i < |a| ensures Alike(a[i], b[i]) { assert p[i] == s[i]; }
    }
    if |a| <= |b| && forall i :: 0 <= i < |a| ==> Alike(a[i], b[i]) {
      forall i | 0 <= i < |p| ensures p[i] == s[i] { assert Alike(a[i], b[i]); }
    }
  }

  /** Two spellings are one name exactly when, bare, they are equally long and alike byte by byte. */
  lemma CanonicalEqIff(a: Str, b: Str)
    ensures CanonicalEq(a, b) <==>
            |Bare(a)| == |Bare(b)| && forall i :: 0 <= i < |Bare(a)| ==> Alike(Bare(a)[i], Bare(b)[i])
  {
    CanonicalPrefixIff(a, b);
    assert |Canonical(a)| == |Bare(a)| && |Canonical(b)| == |Bare(b)|;
  }

  // ------------------------------------------------------------------ UTF-8

  predicate Trail(b: byte) {
    0x80 <= b <= 0xBF
  }

  /** Which second byte a three- or four-byte lead allows (section 4 of RFC 3629). */
  predicate Second(lead: byte, b: byte) {
    if lead == 0xE0 then 0xA0 <= b <= 0xBF
    else if lead == 0xED then 0x80 <= b <= 0x9F
    else if lead == 0xF0 then 0x90 <= b <= 0xBF
    else if lead == 0xF4 then 0x80 <= b <= 0x8F
    else Trail(b)
  }

  /** Bytes in the first character; none when the bytes do not begin with one. */
  function CharLength(s: Str): (n: nat)
    ensures n <= |s|
  {
    if s == [] then 0
    else if s[0] < 0x80 then 1
    else if 0xC2 <= s[0] <= 0xDF then
      if |s| >= 2 && Trail(s[1]) then 2 else 0
    else if 0xE0 <= s[0] <= 0xEF then
      if |s| >= 3 && Second(s[0], s[1]) && Trail(s[2]) then 3 else 0
    else if 0xF0 <= s[0] <= 0xF4 then
      if |s| >= 4 && Second(s[0], s[1]) && Trail(s[2]) && Trail(s[3]) then 4 else 0
    else 0
  }

  predicate Utf8(s: Str) {
    s == [] || (CharLength(s) > 0 && Utf8(s[CharLength(s)..]))
  }

  lemma {:induction false} Utf8Concat(a: Str, b: Str)
    requires Utf8(a)
    ensures Utf8(a + b) <==> Utf8(b)
    decreases |a|
  {
    if a == [] {
      assert a + b == b;
    } else {
      var n := CharLength(a);
      assert CharLength(a + b) == n;
      assert (a + b)[n..] == a[n..] + b;
      Utf8Concat(a[n..], b);
    }
  }

  lemma {:induction false} Utf8Dots(s: Str)
    ensures Utf8(Dots(s)) <==> Utf8(s)
    decreases |s|
  {
    var n := CharLength(s);
    assert CharLength(Dots(s)) == n;
    if s != [] && n > 0 {
      assert Dots(s)[n..] == Dots(s[n..]);
      Utf8Dots(s[n..]);
    }
  }

  lemma Utf8Canonical(s: Str)
    requires Utf8(s)
    ensures Utf8(Canonical(s))
  {
    if Leading(s) == 1 { assert CharLength(s) == 1; }
    Utf8Dots(s[Leading(s)..]);
  }

  /** The cut falls between characters, so taking the rest as a string is always possible. */
  lemma StripCutsBetweenCharacters(spelling: Str, prefix: Str)
    requires Utf8(spelling) && Utf8(prefix) && Canonical(prefix) <= Canonical(spelling)
    ensures Utf8(StripCanonicalPrefix(spelling, prefix).value)
  {
    var rest := StripCanonicalPrefix(spelling, prefix).value;
    Utf8Canonical(prefix);
    Utf8Canonical(spelling);
    Utf8Concat(Canonical(prefix), Dots(rest));
    Utf8Dots(rest);
  }
}
