/** Relative names: a scope with one prefix turns what a client asks for into a stored name, and back. */
module AutoPrefix {
  import opened Prelude
  import opened Names
  import opened Scopes
  import opened Narrowing

  function SetOf(s: Scope, r: Resource): ResourceSet {
    match r
    case StreamName => s.streams
    case TokenId => s.tokens
    case Group => s.groups
  }

  function TrimLeading(s: Str): (t: Str)
    ensures Leading(t) == 0 && |t| <= |s| && t == s[|s| - |t|..]
    ensures forall i :: 0 <= i < |s| - |t| ==> s[i] == SLASH
  {
    if Leading(s) == 1 then
      var t := TrimLeading(s[1..]);
      assert forall i :: 0 < i < |s| - |t| ==> s[i] == s[1..][i - 1];
      t
    else s
  }

  predicate EndsWithSlash(s: Str) {
    s != [] && s[|s| - 1] == SLASH
  }

  function Joined(prefix: Str, name: Str): Str {
    if EndsWithSlash(prefix) then prefix + name
    else if name == [] then prefix
    else prefix + [SLASH] + name
  }

  function Resolve(s: Scope, r: Resource, clientName: Str): Result<Str, IssueError> {
    if !s.autoPrefix then Ok(clientName)
    else if !SolePrefix(SetOf(s, r)) then Err(Denied)
    else Ok(Joined(SetOf(s, r)[0].text, TrimLeading(clientName)))
  }

  function Strip(s: Scope, r: Resource, stored: Str): Str {
    if !s.autoPrefix || !SolePrefix(SetOf(s, r)) then stored
    else
      var prefix := SetOf(s, r)[0].text;
      if r.StreamName? then
        match StripCanonicalPrefix(stored, prefix)
        case Some(rest) => rest
        case None => stored
      else if prefix <= stored then stored[|prefix|..] else stored
  }

  // ------------------------------------------------------------- round trip

  lemma JoinedCanonically(prefix: Str, name: Str)
    requires Leading(name) == 0
    ensures Canonical(prefix) <= Canonical(Joined(prefix, name))
  {
    if EndsWithSlash(prefix) {
      CanonicalConcat(prefix, name);
    } else if name != [] && prefix != [] {
      assert prefix + [SLASH] + name == prefix + ([SLASH] + name);
      CanonicalConcat(prefix, [SLASH] + name);
    }
  }

  /** Whatever a client asks for resolves to a name the scope matches. */
  lemma ResolvedIsInside(s: Scope, r: Resource, name: Str)
    requires s.autoPrefix && SolePrefix(SetOf(s, r))
    ensures Resolve(s, r, name).Ok?
    ensures r.StreamName? ==> s.AllowsStream(Resolve(s, r, name).value)
    ensures !r.StreamName? ==> SetMatches(SetOf(s, r), Resolve(s, r, name).value)
  {
    var prefix := SetOf(s, r)[0].text;
    var t := TrimLeading(name);
    JoinedCanonically(prefix, t);
    if r.StreamName? {
      assert s.streams[0] == Prefix(prefix);
    } else {
      assert prefix <= Joined(prefix, t);
      assert SetOf(s, r)[0].Matches(Joined(prefix, t));
    }
  }

  /** Behind the prefix a joined name is the relative name, up to the slash that joined it. */
  lemma JoinedBehind(prefix: Str, name: Str)
    ensures var stored := Joined(prefix, name);
            prefix <= stored && (stored[|prefix|..] == name || stored[|prefix|..] == [SLASH] + name)
  {
  }

  lemma StripJoinedStream(prefix: Str, name: Str)
    requires Leading(name) == 0
    ensures var rest := StripCanonicalPrefix(Joined(prefix, name), prefix);
            rest.Some? && (rest.value == name || rest.value == [SLASH] + name)
  {
    var stored := Joined(prefix, name);
    JoinedCanonically(prefix, name);
    JoinedBehind(prefix, name);
    if prefix == [] {
      assert stored[|prefix|..] == stored;
    } else {
      assert stored[0] == prefix[0];
      assert Leading(stored) + |Canonical(prefix)| == |prefix|;
    }
  }

  /** Stripping a joined name leaves the relative name, up to the slash that joined it. */
  lemma StripJoined(s: Scope, r: Resource, name: Str)
    requires s.autoPrefix && SolePrefix(SetOf(s, r)) && Leading(name) == 0
    ensures var rest := Strip(s, r, Joined(SetOf(s, r)[0].text, name));
            rest == name || rest == [SLASH] + name
  {
    var prefix := SetOf(s, r)[0].text;
    if r.StreamName? { StripJoinedStream(prefix, name); } else { JoinedBehind(prefix, name); }
  }

  lemma TrimJoining(name: Str)
    requires Leading(name) == 0
    ensures TrimLeading(name) == name && TrimLeading([SLASH] + name) == name
  {
    assert ([SLASH] + name)[1..] == name;
  }

  /** The name a client is shown leads back to the stream it was shown for. */
  lemma RoundTrip(s: Scope, r: Resource, name: Str)
    requires Resolve(s, r, name).Ok?
    ensures Resolve(s, r, Strip(s, r, Resolve(s, r, name).value)) == Resolve(s, r, name)
  {
    if s.autoPrefix {
      var t := TrimLeading(name);
      StripJoined(s, r, t);
      TrimJoining(t);
    }
  }

  /** Two client names reach one stored name exactly when they differ in leading slashes only. */
  lemma ResolveInjective(s: Scope, r: Resource, a: Str, b: Str)
    requires s.autoPrefix && SolePrefix(SetOf(s, r))
    ensures Resolve(s, r, a) == Resolve(s, r, b) <==> TrimLeading(a) == TrimLeading(b)
  {
    var x, y := TrimLeading(a), TrimLeading(b);
    StripJoined(s, r, x);
    StripJoined(s, r, y);
    TrimJoining(x);
    TrimJoining(y);
  }

  /** Without prefixing a name stands for itself; prefixing without one prefix to use is denied. */
  lemma ResolvesIff(s: Scope, r: Resource, name: Str)
    ensures !s.autoPrefix ==> Resolve(s, r, name) == Ok(name)
    ensures var rs := match r case StreamName => s.streams case TokenId => s.tokens case Group => s.groups;
            s.autoPrefix ==> (Resolve(s, r, name) == Err(Denied) <==> !(|rs| == 1 && rs[0].Prefix?))
  {
  }

  /** The name begins with just so many slashes. */
  ghost predicate Slashed(name: Str, slashes: nat) {
    slashes <= |name| && (forall i :: 0 <= i < slashes ==> name[i] == 47) && (slashes < |name| ==> name[slashes] != 47)
  }

  /** What a client asks for is put under the prefix as a path: its own leading slashes do not count, one slash
      joins the two, and asking for nothing asks for the prefix itself. */
  lemma ResolvesTo(s: Scope, r: Resource, p: Str, name: Str, slashes: nat)
    requires s.autoPrefix && (match r case StreamName => s.streams case TokenId => s.tokens case Group => s.groups) == [Prefix(p)]
    requires Slashed(name, slashes)
    ensures Resolve(s, r, name) ==
            if slashes == |name| then Ok(p)
            else if p != [] && p[|p| - 1] == 47 then Ok(p + name[slashes..])
            else Ok(p + [47] + name[slashes..])
  {
    TrimsTo(name, slashes);
    JoinsTo(p, name[slashes..]);
    ResolvesByJoining(s, r, p, name);
  }

  lemma JoinsTo(p: Str, path: Str)
    ensures Joined(p, path) ==
            if path == [] then p else if p != [] && p[|p| - 1] == 47 then p + path else p + [47] + path
  {
    assert p + [] == p;
  }

  lemma ResolvesByJoining(s: Scope, r: Resource, p: Str, name: Str)
    requires s.autoPrefix && (match r case StreamName => s.streams case TokenId => s.tokens case Group => s.groups) == [Prefix(p)]
    ensures Resolve(s, r, name) == Ok(Joined(p, TrimLeading(name)))
  {
  }

  lemma SlashedRest(name: Str, slashes: nat)
    requires Slashed(name, slashes) && slashes > 0
    ensures name != [] && name[0] == 47 && Slashed(name[1..], slashes - 1)
  {
    var rest := name[1..];
    assert forall i :: 0 <= i < |rest| ==> rest[i] == name[i + 1];
  }

  lemma TrimOne(name: Str)
    ensures TrimLeading(name) == if name != [] && name[0] == 47 then TrimLeading(name[1..]) else name
  {
  }

  lemma {:induction false} TrimsTo(name: Str, slashes: nat)
    requires Slashed(name, slashes)
    ensures TrimLeading(name) == name[slashes..]
    decreases slashes
  {
    TrimOne(name);
    if slashes > 0 {
      SlashedRest(name, slashes);
      TrimsTo(name[1..], slashes - 1);
      assert name[1..][slashes - 1..] == name[slashes..];
    }
  }

  /** A stored name is shown without the prefix where it has it, and as it is otherwise. */
  lemma StripsTo(s: Scope, r: Resource, p: Str, stored: Str)
    requires s.autoPrefix && (match r case StreamName => s.streams case TokenId => s.tokens case Group => s.groups) == [Prefix(p)]
    ensures r.StreamName? ==>
              if Canonical(p) <= Canonical(stored) then
                var rest := Strip(s, r, stored);
                |rest| <= |stored| && rest == stored[|stored| - |rest|..] && Canonical(p) + Dots(rest) == Canonical(stored)
              else Strip(s, r, stored) == stored
    ensures !r.StreamName? ==>
              if p <= stored then p + Strip(s, r, stored) == stored else Strip(s, r, stored) == stored
  {
  }

  /** Tenants whose prefixes are incomparable never reach one stream, in either spelling. */
  lemma TenantsAreApart(s: Scope, t: Scope, a: Str, b: Str)
    requires s.autoPrefix && SolePrefix(s.streams) && t.autoPrefix && SolePrefix(t.streams)
    requires !(Canonical(s.streams[0].text) <= Canonical(t.streams[0].text))
    requires !(Canonical(t.streams[0].text) <= Canonical(s.streams[0].text))
    ensures !CanonicalEq(Resolve(s, StreamName, a).value, Resolve(t, StreamName, b).value)
  {
    var p, q := Canonical(s.streams[0].text), Canonical(t.streams[0].text);
    JoinedCanonically(s.streams[0].text, TrimLeading(a));
    JoinedCanonically(t.streams[0].text, TrimLeading(b));
    PrefixesOfOne(p, q, Canonical(Resolve(s, StreamName, a).value));
  }

  lemma PrefixesOfOne(p: Str, q: Str, name: Str)
    requires p <= name
    ensures q <= name ==> p <= q || q <= p
  {
    assert q <= name && |p| <= |q| ==> q[..|p|] == name[..|p|];
    assert q <= name && |q| <= |p| ==> p[..|q|] == name[..|q|];
  }
}
