/** How exact set containment is. Matchers and names are Unicode strings, and a set may allow every name
    with some prefix without holding one matcher for it: the prefix itself and each way to go on, one by
    one. Containment refuses such a child; it is exact otherwise. Streams are compared in canonical form,
    and the names there are those without a slash. */
module Inclusion {
  import opened Prelude
  import opened Names
  import opened Unicode
  import opened Scopes

  datatype Alphabet = AnyCharacter | NoSlash

  predicate Letter(a: Alphabet, ch: Str) {
    Character(ch) && (a.NoSlash? ==> ch != [SLASH])
  }

  predicate Word(a: Alphabet, name: Str) {
    Utf8(name) && (a.NoSlash? ==> SLASH !in name)
  }

  ghost predicate Textual(a: Alphabet, rs: ResourceSet) {
    forall i :: 0 <= i < |rs| ==> Word(a, rs[i].text)
  }

  /** Every name the child allows the parent allows. */
  ghost predicate Includes(a: Alphabet, parent: ResourceSet, child: ResourceSet) {
    forall name :: Word(a, name) && SetMatches(child, name) ==> SetMatches(parent, name)
  }

  ghost predicate IncludesPrefix(a: Alphabet, parent: ResourceSet, c: Str) {
    forall name :: Word(a, name) && c <= name ==> SetMatches(parent, name)
  }

  function Longest(parent: ResourceSet): (n: nat)
    ensures forall i :: 0 <= i < |parent| ==> |parent[i].text| <= n
  {
    if parent == [] then 0 else Max(Longest(parent[..|parent| - 1]), |parent[|parent| - 1].text|)
  }

  /** A prefix of the parent covers `c`; or `c` itself is listed, and so is every way to go on. */
  ghost predicate FullTree(a: Alphabet, parent: ResourceSet, c: Str)
    decreases Longest(parent) + 1 - |c|
  {
    || Covers(parent, Prefix(c))
    || (Exact(c) in parent && forall ch :: Letter(a, ch) ==> FullTree(a, parent, c + ch))
  }

  function First(rest: Str): (ch: Str)
    requires Utf8(rest) && rest != []
    ensures Character(ch) && ch <= rest
  {
    rest[..CharLength(rest)]
  }

  lemma FirstIsLetter(a: Alphabet, rest: Str)
    requires Word(a, rest) && rest != []
    ensures Letter(a, First(rest))
  {
  }

  lemma LetterIsWord(a: Alphabet, ch: Str)
    requires Letter(a, ch)
    ensures Word(a, ch)
  {
    assert ch[|ch|..] == [];
  }

  lemma WordConcat(a: Alphabet, x: Str, y: Str)
    requires Word(a, x)
    ensures Word(a, x + y) <==> Word(a, y)
  {
    Utf8Concat(x, y);
  }

  lemma ExactMatchesOrCovers(parent: ResourceSet, c: Str)
    requires SetMatches(parent, c)
    ensures Covers(parent, Prefix(c)) || Exact(c) in parent
  {
    var j :| 0 <= j < |parent| && parent[j].Matches(c);
    assert parent[j].Exact? ==> parent[j] == Exact(c);
    assert parent[j].Prefix? ==> parent[j].Contains(Prefix(c));
  }

  lemma CoveredMatches(parent: ResourceSet, c: Str, name: Str)
    requires Covers(parent, Prefix(c)) && c <= name
    ensures SetMatches(parent, name)
  {
    var j :| 0 <= j < |parent| && parent[j].Contains(Prefix(c));
    ContainedMatches(parent[j], Prefix(c), name);
  }

  lemma {:induction false} FullTreeMatches(a: Alphabet, parent: ResourceSet, c: Str, name: Str)
    requires Word(a, c) && FullTree(a, parent, c) && Word(a, name) && c <= name
    ensures SetMatches(parent, name)
    decreases |name| - |c|
  {
    if Covers(parent, Prefix(c)) {
      CoveredMatches(parent, c, name);
    } else if name == c {
      var j :| 0 <= j < |parent| && parent[j] == Exact(c);
      assert parent[j].Matches(name);
    } else {
      var rest := name[|c|..];
      assert c + rest == name;
      WordConcat(a, c, rest);
      var ch := First(rest);
      FirstIsLetter(a, rest);
      LetterIsWord(a, ch);
      WordConcat(a, c, ch);
      assert rest[..|ch|] == ch && (c + ch) == name[..|c + ch|];
      FullTreeMatches(a, parent, c + ch, name);
    }
  }

  lemma {:induction false} IncludedIsFullTree(a: Alphabet, parent: ResourceSet, c: Str)
    requires Word(a, c) && IncludesPrefix(a, parent, c)
    ensures FullTree(a, parent, c)
    decreases Longest(parent) + 1 - |c|
  {
    assert SetMatches(parent, c);
    ExactMatchesOrCovers(parent, c);
    if !Covers(parent, Prefix(c)) {
      forall ch | Letter(a, ch) ensures FullTree(a, parent, c + ch) {
        LetterIsWord(a, ch);
        WordConcat(a, c, ch);
        forall name | Word(a, name) && c + ch <= name ensures SetMatches(parent, name) {
          assert c == (c + ch)[..|c|] == name[..|c|];
        }
        IncludedIsFullTree(a, parent, c + ch);
      }
    }
  }

  /** A parent allows every name with a prefix exactly when it has the full tree of it. */
  lemma PrefixInclusionIff(a: Alphabet, parent: ResourceSet, c: Str)
    requires Word(a, c)
    ensures IncludesPrefix(a, parent, c) <==> FullTree(a, parent, c)
  {
    if FullTree(a, parent, c) {
      forall name | Word(a, name) && c <= name ensures SetMatches(parent, name) {
        FullTreeMatches(a, parent, c, name);
      }
    }
    if IncludesPrefix(a, parent, c) { IncludedIsFullTree(a, parent, c); }
  }

  ghost predicate Accounted(a: Alphabet, parent: ResourceSet, m: Matcher) {
    match m
    case Exact(e) => SetMatches(parent, e)
    case Prefix(c) => FullTree(a, parent, c)
  }

  lemma MatcherInclusionIff(a: Alphabet, parent: ResourceSet, m: Matcher)
    requires Word(a, m.text)
    ensures Accounted(a, parent, m) <==> forall name :: Word(a, name) && m.Matches(name) ==> SetMatches(parent, name)
  {
    match m {
      case Exact(e) =>
        assert m.Matches(e);
      case Prefix(c) =>
        PrefixInclusionIff(a, parent, c);
        assert forall name :: m.Matches(name) <==> c <= name;
    }
  }

  /** The set of names is included exactly when each matcher of the child is accounted for. */
  lemma SetInclusionIff(a: Alphabet, parent: ResourceSet, child: ResourceSet)
    requires Textual(a, child)
    ensures Includes(a, parent, child) <==> forall i :: 0 <= i < |child| ==> Accounted(a, parent, child[i])
  {
    forall i | 0 <= i < |child|
      ensures Accounted(a, parent, child[i])
              <==> forall name :: Word(a, name) && child[i].Matches(name) ==> SetMatches(parent, name)
    {
      MatcherInclusionIff(a, parent, child[i]);
    }
    if Includes(a, parent, child) {
      forall i | 0 <= i < |child| ensures Accounted(a, parent, child[i]) {
        forall name | Word(a, name) && child[i].Matches(name) ensures SetMatches(parent, name) {
          assert SetMatches(child, name);
        }
      }
    }
    if forall i :: 0 <= i < |child| ==> Accounted(a, parent, child[i]) {
      forall name | Word(a, name) && SetMatches(child, name) ensures SetMatches(parent, name) {
        var i :| 0 <= i < |child| && child[i].Matches(name);
      }
    }
  }

  // --------------------------------------------------- exactly when it is exact

  lemma ExactCoveredIff(parent: ResourceSet, e: Str)
    ensures Covers(parent, Exact(e)) <==> SetMatches(parent, e)
  {
    if Covers(parent, Exact(e)) {
      var j :| 0 <= j < |parent| && parent[j].Contains(Exact(e));
      assert parent[j].Matches(e);
    }
    if SetMatches(parent, e) {
      var j :| 0 <= j < |parent| && parent[j].Matches(e);
      assert parent[j].Contains(Exact(e));
    }
  }

  lemma CoveredIsAccounted(a: Alphabet, parent: ResourceSet, m: Matcher)
    requires Covers(parent, m)
    ensures Accounted(a, parent, m)
  {
    if m.Exact? { ExactCoveredIff(parent, m.text); }
  }

  lemma SetContainsIff(parent: ResourceSet, child: ResourceSet)
    ensures SetContains(parent, child) <==> forall i :: 0 <= i < |child| ==> Covers(parent, child[i])
  {
    if child != [] { assert Covers(parent, child[0]) ==> parent != []; }
  }

  /** A prefix the parent allows throughout although no prefix of its own covers it. */
  ghost predicate Gap(a: Alphabet, parent: ResourceSet, m: Matcher) {
    m.Prefix? && !Covers(parent, m) && FullTree(a, parent, m.text)
  }

  /** Every matcher of the child is accounted for, and one of them only by a full tree. */
  ghost predicate Misjudged(a: Alphabet, parent: ResourceSet, child: ResourceSet) {
    && (forall i :: 0 <= i < |child| ==> Accounted(a, parent, child[i]))
    && exists i :: 0 <= i < |child| && Gap(a, parent, child[i])
  }

  ghost predicate ExactFor(a: Alphabet, parent: ResourceSet, child: ResourceSet) {
    SetContains(parent, child) <==> Includes(a, parent, child)
  }

  /** Containment implies inclusion, and is refused in spite of it exactly when the child is misjudged. */
  lemma SetContainsExactIff(a: Alphabet, parent: ResourceSet, child: ResourceSet)
    requires Textual(a, child)
    ensures SetContains(parent, child) ==> Includes(a, parent, child)
    ensures ExactFor(a, parent, child) <==> !Misjudged(a, parent, child)
  {
    SetInclusionIff(a, parent, child);
    SetContainsIff(parent, child);
    forall i | 0 <= i < |child|
      ensures Covers(parent, child[i]) <==> Accounted(a, parent, child[i]) && !Gap(a, parent, child[i])
    {
      if Covers(parent, child[i]) { CoveredIsAccounted(a, parent, child[i]); }
      if child[i].Exact? { ExactCoveredIff(parent, child[i].text); }
    }
  }

  ghost predicate HasGap(a: Alphabet, parent: ResourceSet) {
    exists c :: Word(a, c) && Gap(a, parent, Prefix(c))
  }

  /** A parent decides every child exactly when it has no gap. */
  lemma ExactForEveryChildIff(a: Alphabet, parent: ResourceSet)
    ensures (forall child :: Textual(a, child) ==> ExactFor(a, parent, child)) <==> !HasGap(a, parent)
  {
    if HasGap(a, parent) {
      var c :| Word(a, c) && Gap(a, parent, Prefix(c));
      var child := [Prefix(c)];
      SetContainsExactIff(a, parent, child);
      assert Textual(a, child) && Gap(a, parent, child[0]) && !ExactFor(a, parent, child);
    } else {
      forall child: ResourceSet | Textual(a, child) ensures ExactFor(a, parent, child) {
        SetContainsExactIff(a, parent, child);
        forall i | 0 <= i < |child| ensures !Gap(a, parent, child[i]) {
          assert child[i].Prefix? ==> child[i] == Prefix(child[i].text);
        }
      }
    }
  }

  // ------------------------------------------------------- how many it takes

  /** The number of the character with which the matcher's text goes on after `c`, if it does. */
  function NextAfter(m: Matcher, c: Str): int
    requires Utf8(c) && Utf8(m.text)
  {
    if c < m.text then
      assert c + m.text[|c|..] == m.text;
      Utf8Concat(c, m.text[|c|..]);
      Number(First(m.text[|c|..]))
    else -1
  }

  ghost function NextCharacters(a: Alphabet, parent: ResourceSet, c: Str): (next: seq<int>)
    requires Utf8(c) && Textual(a, parent)
    ensures |next| == |parent|
  {
    seq(|parent|, i requires 0 <= i < |parent| => NextAfter(parent[i], c))
  }

  lemma {:induction false} FewElements(xs: seq<int>)
    ensures |set x | x in xs| <= |xs|
    decreases |xs|
  {
    if xs != [] {
      var n := |xs| - 1;
      FewElements(xs[..n]);
      assert (set x | x in xs) == (set x | x in xs[..n]) + {xs[n]};
    }
  }

  lemma SubsetSize<T>(a: set<T>, b: set<T>)
    requires a <= b
    ensures |a| <= |b|
  {
    assert b == a + (b - a);
  }

  /** The numbers from -1 up to `n`, without `n`. */
  function UpTo(n: nat): (s: set<int>)
    ensures |s| == n + 1 && forall b :: b in s <==> -1 <= b < n
  {
    if n == 0 then {-1} else UpTo(n - 1) + {n - 1}
  }

  /** A character string that is the start of one character is all of it. */
  lemma CharacterIsWhole(q: Str, ch: Str)
    requires Character(ch) && Utf8(q) && q != [] && q <= ch
    ensures First(q) == ch
  {
    assert q[0] == ch[0];
  }

  lemma DropFront(c: Str, text: Str, ch: Str)
    requires c < text <= c + ch
    ensures c + text[|c|..] == text && text[|c|..] <= ch
  {
    assert text[|c|..] == (c + ch)[|c|..|text|];
  }

  lemma TextGoesOn(m: Matcher, c: Str, ch: Str)
    requires Utf8(c) && Utf8(m.text) && Character(ch) && c < m.text <= c + ch
    ensures NextAfter(m, c) == Number(ch)
  {
    DropFront(c, m.text, ch);
    Utf8Concat(c, m.text[|c|..]);
    CharacterIsWhole(m.text[|c|..], ch);
  }

  lemma LongerPrefix(p: Str, c: Str, name: Str)
    requires p <= name && c <= name && !(p <= c)
    ensures c < p
  {
    assert p == name[..|p|] && c == name[..|c|];
  }

  /** Filling a gap takes a matcher for every character that may come next. */
  lemma GapGoesOn(a: Alphabet, parent: ResourceSet, c: Str, ch: Str)
    requires Textual(a, parent) && Utf8(c) && Gap(a, parent, Prefix(c)) && Letter(a, ch)
    ensures Number(ch) in NextCharacters(a, parent, c)
  {
    var longer := c + ch;
    assert FullTree(a, parent, longer);
    var j: int;
    if Covers(parent, Prefix(longer)) {
      j :| 0 <= j < |parent| && parent[j].Contains(Prefix(longer));
      assert !parent[j].Contains(Prefix(c));
      LongerPrefix(parent[j].text, c, longer);
    } else {
      j :| 0 <= j < |parent| && parent[j] == Exact(longer);
    }
    TextGoesOn(parent[j], c, ch);
    assert NextCharacters(a, parent, c)[j] == Number(ch);
  }

  /** All numbers from -1 up to `n` but one. */
  lemma Pigeonhole(s: set<int>, n: nat, but: int)
    requires forall i :: -1 <= i < n && i != but ==> i in s
    ensures |s| >= n && (but in s || but >= n ==> |s| > n)
  {
    SubsetSize(UpTo(n) - {but}, s);
    SubsetSize(UpTo(n), s + {but});
    if but >= n { assert UpTo(n) - {but} == UpTo(n); }
    if but in s { assert s + {but} == s; }
  }

  function Letters(a: Alphabet): nat {
    if a.NoSlash? then CHARACTERS - 1 else CHARACTERS
  }

  lemma GapIsBig(a: Alphabet, parent: ResourceSet, c: Str)
    requires Textual(a, parent) && Utf8(c) && Gap(a, parent, Prefix(c))
    ensures |parent| > Letters(a)
  {
    var next := NextCharacters(a, parent, c);
    assert -1 in next by {
      var j :| 0 <= j < |parent| && parent[j] == Exact(c);
      assert next[j] == -1;
    }
    var but := if a.NoSlash? then SLASH as int else CHARACTERS;
    forall i | 0 <= i < CHARACTERS && i != but ensures i in next {
      NumberingIsExact(c, i);
      GapGoesOn(a, parent, c, Nth(i));
    }
    Pigeonhole((set x | x in next), CHARACTERS, but);
    FewElements(next);
  }

  /** With no more matchers than there are characters, containment of sets decides inclusion exactly. */
  lemma SetContainsExactly(a: Alphabet, parent: ResourceSet, child: ResourceSet)
    requires Textual(a, parent) && Textual(a, child) && |parent| <= Letters(a)
    ensures SetContains(parent, child) <==> Includes(a, parent, child)
  {
    SetContainsExactIff(a, parent, child);
    forall i | 0 <= i < |child| ensures !Gap(a, parent, child[i]) {
      if Gap(a, parent, child[i]) {
        assert child[i] == Prefix(child[i].text);
        GapIsBig(a, parent, child[i].text);
      }
    }
  }

  function NthLetter(a: Alphabet, i: nat): (ch: Str)
    requires i < Letters(a)
    ensures Letter(a, ch)
  {
    var n := if a.NoSlash? && i >= SLASH then i + 1 else i;
    NumberingIsExact([SLASH], n);
    Nth(n)
  }

  /** The empty name, and one prefix for each character. */
  function EveryLetter(a: Alphabet): (rs: ResourceSet)
    ensures |rs| == Letters(a) + 1
  {
    [Exact([])] + seq(Letters(a), i requires 0 <= i < Letters(a) => Prefix(NthLetter(a, i)))
  }

  lemma LetterIsListed(a: Alphabet, ch: Str) returns (i: nat)
    requires Letter(a, ch)
    ensures i < Letters(a) && NthLetter(a, i) == ch
  {
    NumberingIsExact(ch, 0);
    i := if a.NoSlash? && Number(ch) > SLASH then Number(ch) - 1 else Number(ch);
  }

  /** One matcher more, and inclusion can hold while containment is refused. */
  lemma ManyMatchersEscape(a: Alphabet)
    ensures var parent := EveryLetter(a);
            Textual(a, parent) && |parent| == Letters(a) + 1
            && Includes(a, parent, [Prefix([])]) && !SetContains(parent, [Prefix([])])
  {
    var parent, child := EveryLetter(a), [Prefix([])];
    forall i | 0 < i < |parent|
      ensures parent[i] == Prefix(NthLetter(a, i - 1)) && Word(a, parent[i].text) && !parent[i].Contains(child[0])
    {
      LetterIsWord(a, NthLetter(a, i - 1));
    }
    forall name | Word(a, name) ensures SetMatches(parent, name) {
      if name == [] {
        assert parent[0].Matches(name);
      } else {
        FirstIsLetter(a, name);
        var i := LetterIsListed(a, First(name));
        assert parent[1 + i].Matches(name);
      }
    }
    assert !Covers(parent, child[0]);
  }

  // ---------------------------------------------------------------- streams

  /** Every stream the child set allows, in whichever spelling, the parent allows. */
  ghost predicate IncludesStreams(parent: Scope, child: Scope) {
    forall name :: Utf8(name) && child.AllowsStream(name) ==> parent.AllowsStream(name)
  }

  lemma CanonicalIsWord(name: Str)
    requires Utf8(name)
    ensures Word(NoSlash, Canonical(name))
  {
    Utf8Canonical(name);
  }

  lemma WordIsCanonical(name: Str)
    requires Word(NoSlash, name)
    ensures Canonical(name) == name
  {
    assert name != [] ==> name[0] in name;
  }

  /** Streams are included exactly when the canonical sets are, over names without a slash. */
  lemma StreamInclusionIff(parent: Scope, child: Scope)
    ensures IncludesStreams(parent, child) <==> Includes(NoSlash, CanonicalSet(parent.streams), CanonicalSet(child.streams))
  {
    var p, c := CanonicalSet(parent.streams), CanonicalSet(child.streams);
    if Includes(NoSlash, p, c) {
      forall name | Utf8(name) && child.AllowsStream(name) ensures parent.AllowsStream(name) {
        AllowsCanonically(child, name);
        AllowsCanonically(parent, name);
        CanonicalIsWord(name);
      }
    }
    if IncludesStreams(parent, child) {
      forall name | Word(NoSlash, name) && SetMatches(c, name) ensures SetMatches(p, name) {
        WordIsCanonical(name);
        AllowsCanonically(child, name);
        AllowsCanonically(parent, name);
      }
    }
  }

  lemma CanonicalIsTextual(rs: ResourceSet)
    requires Textual(AnyCharacter, rs)
    ensures Textual(NoSlash, CanonicalSet(rs))
  {
    forall i | 0 <= i < |rs| ensures Word(NoSlash, CanonicalSet(rs)[i].text) {
      CanonicalIsWord(rs[i].text);
    }
  }

  /** Containment of the stream sets of two scopes, likewise. */
  lemma StreamsContainExactIff(parent: Scope, child: Scope)
    requires Textual(AnyCharacter, child.streams)
    ensures ContainsStreams(parent, child.streams) ==> IncludesStreams(parent, child)
    ensures (ContainsStreams(parent, child.streams) <==> IncludesStreams(parent, child))
            <==> !Misjudged(NoSlash, CanonicalSet(parent.streams), CanonicalSet(child.streams))
  {
    CanonicalIsTextual(child.streams);
    StreamInclusionIff(parent, child);
    SetContainsExactIff(NoSlash, CanonicalSet(parent.streams), CanonicalSet(child.streams));
  }
}
