/** The Unicode characters, numbered without the surrogates (section 3 of RFC 3629). */
module Unicode {
  import opened Prelude
  import opened Names

  /** How many there are: 0x110000 code points less 0x800 surrogates. */
  const CHARACTERS: nat := 0x10F800

  /** The bytes of one character. */
  predicate Character(ch: Str) {
    ch != [] && CharLength(ch) == |ch|
  }

  function CodePoint(i: nat): nat {
    if i < 0xD800 then i else i + 0x800
  }

  /** The last six bits in a trailing byte, and what is left. */
  function Low(x: nat): byte { 0x80 + x % 0x40 }

  function High(x: nat): nat { x / 0x40 }

  function Joined(high: int, b: byte): int { high * 0x40 + (b - 0x80) }

  lemma SplitJoins(x: nat)
    ensures Trail(Low(x)) && Joined(High(x), Low(x)) == x
  {
  }

  lemma JoinSplits(high: nat, b: byte)
    requires Trail(b)
    ensures 0 <= Joined(high, b) && High(Joined(high, b)) == high && Low(Joined(high, b)) == b
  {
  }

  function Encode(x: nat): Str
    requires x < 0x110000
  {
    if x < 0x80 then [x]
    else if x < 0x800 then [0xC0 + High(x), Low(x)]
    else if x < 0x10000 then [0xE0 + High(High(x)), Low(High(x)), Low(x)]
    else [0xF0 + High(High(High(x))), Low(High(High(x))), Low(High(x)), Low(x)]
  }

  function Decode(ch: Str): int
    requires Character(ch)
  {
    if |ch| == 1 then ch[0]
    else if |ch| == 2 then Joined((ch[0] as int) - 0xC0, ch[1])
    else if |ch| == 3 then Joined(Joined((ch[0] as int) - 0xE0, ch[1]), ch[2])
    else Joined(Joined(Joined((ch[0] as int) - 0xF0, ch[1]), ch[2]), ch[3])
  }

  predicate Surrogate(x: int) {
    0xD800 <= x < 0xE000
  }

  lemma EncodeTwo(x: nat)
    requires 0x80 <= x < 0x800
    ensures Character(Encode(x)) && Decode(Encode(x)) == x
  {
    SplitJoins(x);
  }

  lemma EncodeThree(x: nat)
    requires 0x800 <= x < 0x10000 && !Surrogate(x)
    ensures Character(Encode(x)) && Decode(Encode(x)) == x
  {
    SplitJoins(x);
    SplitJoins(High(x));
  }

  lemma EncodeFour(x: nat)
    requires 0x10000 <= x < 0x110000
    ensures Character(Encode(x)) && Decode(Encode(x)) == x
  {
    SplitJoins(x);
    SplitJoins(High(x));
    SplitJoins(High(High(x)));
  }

  lemma EncodeIsCharacter(x: nat)
    requires x < 0x110000 && !Surrogate(x)
    ensures Character(Encode(x)) && Decode(Encode(x)) == x
  {
    if 0x10000 <= x { EncodeFour(x); }
    else if 0x800 <= x { EncodeThree(x); }
    else if 0x80 <= x { EncodeTwo(x); }
  }

  lemma DecodeIsScalar(ch: Str)
    requires Character(ch)
    ensures 0 <= Decode(ch) < 0x110000 && !Surrogate(Decode(ch)) && Encode(Decode(ch)) == ch
  {
    if |ch| == 2 {
      JoinSplits(ch[0] - 0xC0, ch[1]);
    } else if |ch| == 3 {
      JoinSplits(ch[0] - 0xE0, ch[1]);
      JoinSplits(Joined(ch[0] - 0xE0, ch[1]), ch[2]);
    } else if |ch| == 4 {
      JoinSplits(ch[0] - 0xF0, ch[1]);
      JoinSplits(Joined(ch[0] - 0xF0, ch[1]), ch[2]);
      JoinSplits(Joined(Joined(ch[0] - 0xF0, ch[1]), ch[2]), ch[3]);
    }
  }

  /** Character number `i`. */
  function Nth(i: nat): (ch: Str)
    requires i < CHARACTERS
    ensures Character(ch)
  {
    EncodeIsCharacter(CodePoint(i));
    Encode(CodePoint(i))
  }

  function Number(ch: Str): (i: nat)
    requires Character(ch)
    ensures i < CHARACTERS
  {
    DecodeIsScalar(ch);
    if Decode(ch) < 0xD800 then Decode(ch) else Decode(ch) - 0x800
  }

  /** The numbering leaves out no character and counts none twice. */
  lemma NumberingIsExact(ch: Str, i: nat)
    requires i < CHARACTERS
    ensures Number(Nth(i)) == i
    ensures Character(ch) ==> Nth(Number(ch)) == ch
  {
    EncodeIsCharacter(CodePoint(i));
    if Character(ch) { DecodeIsScalar(ch); }
  }
}
