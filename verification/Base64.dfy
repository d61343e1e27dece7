// Base64 as the Blossom authorisation header uses it, against the decoder of section 4 of RFC 4648.
module Base64 {
  import opened Options

  type Byte = n: nat | n < 256

  const ALPHABET := "ABCDEFGHIJKLMNOPQRSTUVWXYZ" + "abcdefghijklmnopqrstuvwxyz" + "0123456789+/"

  // ---------------------------------------------------------------------------------------------
  // Encoding. Shifts and masks of bytes are quotients and remainders.

  // Table 1 of RFC 4648.
  function Symbol(i: nat): char
    requires i < 64
  {
    if i < 26 then 'A' + i as char
    else if i < 52 then 'a' + (i - 26) as char
    else if i < 62 then '0' + (i - 52) as char
    else if i == 62 then '+'
    else '/'
  }

  // The alphabet is that table.
  lemma AlphabetIsTable(i: nat)
    requires i < 64
    ensures ALPHABET[i] == Symbol(i)
  {
    if i < 26 {
      assert ALPHABET[i] == "ABCDEFGHIJKLMNOPQRSTUVWXYZ"[i];
    } else if i < 52 {
      assert ALPHABET[i] == "abcdefghijklmnopqrstuvwxyz"[i - 26];
    } else {
      assert ALPHABET[i] == "0123456789+/"[i - 52];
    }
  }

  // The first group: of up to three bytes.
  function Group(s: seq<Byte>): (g: string)
    requires s != []
    ensures |g| == 4
  {
    var b0, b1, b2 := s[0], if |s| > 1 then s[1] else 0, if |s| > 2 then s[2] else 0;
    [Symbol(b0 / 4),
     Symbol(b0 % 4 * 16 + b1 / 16),
     if |s| > 1 then Symbol(b1 % 16 * 4 + b2 / 64) else '=',
     if |s| > 2 then Symbol(b2 % 64) else '=']
  }

  // The bytes of the first group.
  function Chunk(s: seq<Byte>): seq<Byte>
  {
    if |s| <= 3 then s else s[..3]
  }

  function Encoded(s: seq<Byte>): string
  {
    if s == [] then "" else Group(s) + if |s| <= 3 then "" else Encoded(s[3..])
  }

  lemma Regroup(s: string, g: string, t: string)
    ensures s + g + t == s + (g + t)
  {
  }

  // The characters of one chunk.
  method EncodeChunk(chunk: seq<Byte>) returns (out: string)
    requires 1 <= |chunk| <= 3
    ensures out == Group(chunk)
  {
    var n := |chunk|;
    var b0, b1, b2 := chunk[0], if n > 1 then chunk[1] else 0, if n > 2 then chunk[2] else 0;
    AlphabetIsTable(b0 / 4);
    AlphabetIsTable(b0 % 4 * 16 + b1 / 16);
    AlphabetIsTable(b1 % 16 * 4 + b2 / 64);
    AlphabetIsTable(b2 % 64);
    out := [ALPHABET[b0 / 4]];
    out := out + [ALPHABET[b0 % 4 * 16 + b1 / 16]];
    out := out + [if n > 1 then ALPHABET[b1 % 16 * 4 + b2 / 64] else '='];
    out := out + [if n > 2 then ALPHABET[b2 % 64] else '='];
  }

  lemma ChunkGroup(s: seq<Byte>)
    requires s != []
    ensures Group(Chunk(s)) == Group(s)
  {
  }

  method Encode(input: seq<Byte>) returns (out: string)
    ensures out == Encoded(input)
  {
    out := "";
    var i := 0;
    while i < |input|
      invariant 0 <= i
      invariant Encoded(input) == out + if i < |input| then Encoded(input[i..]) else ""
    {
      var n := if i + 3 <= |input| then 3 else |input| - i;
      ghost var rest, before := input[i..], out;
      assert input[i..i + n] == Chunk(rest);
      var g := EncodeChunk(input[i..i + n]);
      out := out + g;
      ChunkGroup(rest);
      Regroup(before, g, if |rest| > 3 then Encoded(rest[3..]) else "");
      assert |rest| > 3 ==> rest[3..] == input[i + 3..];
      i := i + 3;
    }
  }

  // ---------------------------------------------------------------------------------------------
  // Decoding

  // The table read backwards.
  function Value(c: char): Option<nat>
  {
    if 'A' <= c <= 'Z' then Some((c - 'A') as nat)
    else if 'a' <= c <= 'z' then Some((c - 'a') as nat + 26)
    else if '0' <= c <= '9' then Some((c - '0') as nat + 52)
    else if c == '+' then Some(62)
    else if c == '/' then Some(63)
    else None
  }

  function Digit(c: char): (v: nat)
    ensures v < 64
  {
    if Value(c).Some? then Value(c).value else 0
  }

  predicate IsDigit(c: char)
  {
    Value(c).Some?
  }

  // Sixes put together.
  function Three(d0: nat, d1: nat, d2: nat, d3: nat): seq<Byte>
    requires d0 < 64 && d1 < 64 && d2 < 64 && d3 < 64
  {
    [d0 * 4 + d1 / 16, d1 % 16 * 16 + d2 / 4, d2 % 4 * 64 + d3]
  }

  function Two(d0: nat, d1: nat, d2: nat): seq<Byte>
    requires d0 < 64 && d1 < 64 && d2 < 64
  {
    [d0 * 4 + d1 / 16, d1 % 16 * 16 + d2 / 4]
  }

  function One(d0: nat, d1: nat): seq<Byte>
    requires d0 < 64 && d1 < 64
  {
    [d0 * 4 + d1 / 16]
  }

  // One group of four characters; padding bits must be zero.
  function DecodedGroup(g: string): (r: Option<seq<Byte>>)
    requires |g| == 4
  {
    var d0, d1, d2, d3 := Digit(g[0]), Digit(g[1]), Digit(g[2]), Digit(g[3]);
    if !IsDigit(g[0]) || !IsDigit(g[1]) then None
    else if IsDigit(g[2]) && IsDigit(g[3]) then Some(Three(d0, d1, d2, d3))
    else if IsDigit(g[2]) && g[3] == '=' && d2 % 4 == 0 then Some(Two(d0, d1, d2))
    else if g[2] == '=' && g[3] == '=' && d1 % 16 == 0 then Some(One(d0, d1))
    else None
  }

  // Only the last group may be padded.
  function Decoded(s: string): Option<seq<Byte>>
  {
    if s == "" then Some([])
    else if |s| < 4 || DecodedGroup(s[..4]).None? then None
    else
      var group, rest := DecodedGroup(s[..4]).value, Decoded(s[4..]);
      if rest.None? || (|group| < 3 && |s| > 4) then None else Some(group + rest.value)
  }

  lemma SymbolOfDigit(c: char)
    requires IsDigit(c)
    ensures Symbol(Digit(c)) == c
  {
  }

  lemma DigitOfSymbol(i: nat)
    requires i < 64
    ensures Value(Symbol(i)) == Some(i) && Digit(Symbol(i)) == i && Symbol(i) != '='
  {
  }

  // What a group is made of.
  lemma GroupSymbols(s: seq<Byte>)
    requires s != []
    ensures var g, b0, b1, b2 := Group(s), s[0], if |s| > 1 then s[1] else 0, if |s| > 2 then s[2] else 0;
            && Value(g[0]) == Some(b0 / 4) && Value(g[1]) == Some(b0 % 4 * 16 + b1 / 16)
            && (if |s| > 1 then Value(g[2]) == Some(b1 % 16 * 4 + b2 / 64) else g[2] == '=')
            && (if |s| > 2 then Value(g[3]) == Some(b2 % 64) else g[3] == '=')
  {
    var b0, b1, b2 := s[0], if |s| > 1 then s[1] else 0, if |s| > 2 then s[2] else 0;
    DigitOfSymbol(b0 / 4);
    DigitOfSymbol(b0 % 4 * 16 + b1 / 16);
    DigitOfSymbol(b1 % 16 * 4 + b2 / 64);
    DigitOfSymbol(b2 % 64);
  }

  lemma GroupDecodes(s: seq<Byte>)
    requires s != []
    ensures DecodedGroup(Group(s)) == Some(Chunk(s))
  {
    GroupSymbols(s);
    SixBits(s[0], if |s| > 1 then s[1] else 0, if |s| > 2 then s[2] else 0);
    if |s| == 1 {
      assert s == [s[0]];
    } else if |s| == 2 {
      assert s == [s[0], s[1]];
    } else {
      assert Chunk(s) == [s[0], s[1], s[2]];
    }
  }

  // Bytes cut into sixes and put together again.
  lemma SixBits(b0: Byte, b1: Byte, b2: Byte)
    ensures var d0, d1, d2, d3 := b0 / 4, b0 % 4 * 16 + b1 / 16, b1 % 16 * 4 + b2 / 64, b2 % 64;
            && d0 * 4 + d1 / 16 == b0
            && d1 % 16 * 16 + d2 / 4 == b1
            && d2 % 4 * 64 + d3 == b2
            && (b1 == 0 ==> d1 % 16 == 0) && (b2 == 0 ==> d2 % 4 == 0)
  {
  }

  lemma EightBits(d0: nat, d1: nat, d2: nat, d3: nat)
    requires d0 < 64 && d1 < 64 && d2 < 64 && d3 < 64
    ensures var b0, b1, b2 := d0 * 4 + d1 / 16, d1 % 16 * 16 + d2 / 4, d2 % 4 * 64 + d3;
            && b0 < 256 && b1 < 256 && b2 < 256
            && b0 / 4 == d0 && b0 % 4 * 16 + b1 / 16 == d1 && b1 % 16 * 4 + b2 / 64 == d2 && b2 % 64 == d3
            && b0 % 4 * 16 == d1 - d1 % 16 && b1 % 16 * 4 == d2 - d2 % 4
  {
  }

  // The group of three bytes, from the sixes they are cut into.
  lemma GroupIs(b: seq<Byte>, d0: nat, d1: nat, d2: nat, d3: nat)
    requires |b| == 3 && d0 < 64 && d1 < 64 && d2 < 64 && d3 < 64
    requires d0 == b[0] / 4 && d1 == b[0] % 4 * 16 + b[1] / 16 && d2 == b[1] % 16 * 4 + b[2] / 64 && d3 == b[2] % 64
    ensures Group(b) == [Symbol(d0), Symbol(d1), Symbol(d2), Symbol(d3)]
  {
  }

  lemma GroupOfThree(d0: nat, d1: nat, d2: nat, d3: nat)
    requires d0 < 64 && d1 < 64 && d2 < 64 && d3 < 64
    ensures Group(Three(d0, d1, d2, d3)) == [Symbol(d0), Symbol(d1), Symbol(d2), Symbol(d3)]
  {
    EightBits(d0, d1, d2, d3);
    GroupIs(Three(d0, d1, d2, d3), d0, d1, d2, d3);
  }

  lemma SixteenBits(d0: nat, d1: nat, d2: nat)
    requires d0 < 64 && d1 < 64 && d2 < 64 && d2 % 4 == 0
    ensures var b0, b1 := d0 * 4 + d1 / 16, d1 % 16 * 16 + d2 / 4;
            b0 / 4 == d0 && b0 % 4 * 16 + b1 / 16 == d1 && b1 % 16 * 4 == d2
  {
    EightBits(d0, d1, d2, 0);
  }

  lemma GroupIsPadded(b: seq<Byte>, d0: nat, d1: nat, d2: nat)
    requires |b| == 2 && d0 < 64 && d1 < 64 && d2 < 64
    requires d0 == b[0] / 4 && d1 == b[0] % 4 * 16 + b[1] / 16 && d2 == b[1] % 16 * 4
    ensures Group(b) == [Symbol(d0), Symbol(d1), Symbol(d2), '=']
  {
  }

  lemma GroupOfTwo(d0: nat, d1: nat, d2: nat)
    requires d0 < 64 && d1 < 64 && d2 < 64 && d2 % 4 == 0
    ensures Group(Two(d0, d1, d2)) == [Symbol(d0), Symbol(d1), Symbol(d2), '=']
  {
    SixteenBits(d0, d1, d2);
    GroupIsPadded(Two(d0, d1, d2), d0, d1, d2);
  }

  lemma GroupOfOne(d0: nat, d1: nat)
    requires d0 < 64 && d1 < 64 && d1 % 16 == 0
    ensures Group(One(d0, d1)) == [Symbol(d0), Symbol(d1), '=', '=']
  {
    EightBits(d0, d1, 0, 0);
  }

  lemma ThreeEncode(g: string)
    requires |g| == 4 && IsDigit(g[0]) && IsDigit(g[1]) && IsDigit(g[2]) && IsDigit(g[3])
    ensures DecodedGroup(g).Some? && |DecodedGroup(g).value| == 3 && Group(DecodedGroup(g).value) == g
  {
    SymbolOfDigit(g[0]);
    SymbolOfDigit(g[1]);
    SymbolOfDigit(g[2]);
    SymbolOfDigit(g[3]);
    GroupOfThree(Digit(g[0]), Digit(g[1]), Digit(g[2]), Digit(g[3]));
    FourOf(g);
  }

  lemma TwoEncode(g: string)
    requires |g| == 4 && IsDigit(g[0]) && IsDigit(g[1]) && IsDigit(g[2]) && g[3] == '=' && Digit(g[2]) % 4 == 0
    ensures DecodedGroup(g).Some? && |DecodedGroup(g).value| == 2 && Group(DecodedGroup(g).value) == g
  {
    SymbolOfDigit(g[0]);
    SymbolOfDigit(g[1]);
    SymbolOfDigit(g[2]);
    GroupOfTwo(Digit(g[0]), Digit(g[1]), Digit(g[2]));
    FourOf(g);
  }

  lemma OneEncodes(g: string)
    requires |g| == 4 && IsDigit(g[0]) && IsDigit(g[1]) && g[2] == '=' && g[3] == '=' && Digit(g[1]) % 16 == 0
    ensures DecodedGroup(g).Some? && |DecodedGroup(g).value| == 1 && Group(DecodedGroup(g).value) == g
  {
    SymbolOfDigit(g[0]);
    SymbolOfDigit(g[1]);
    GroupOfOne(Digit(g[0]), Digit(g[1]));
    FourOf(g);
  }

  // A group that decodes is the group of what it decodes to.
  lemma DecodedGroupEncodes(g: string)
    requires |g| == 4 && DecodedGroup(g).Some?
    ensures var b := DecodedGroup(g).value; 1 <= |b| <= 3 && Group(b) == g
  {
    if IsDigit(g[2]) && IsDigit(g[3]) {
      ThreeEncode(g);
    } else if IsDigit(g[2]) {
      TwoEncode(g);
    } else {
      OneEncodes(g);
    }
  }

  lemma FourOf(g: string)
    requires |g| == 4
    ensures g == [g[0], g[1], g[2], g[3]]
  {
  }

  lemma {:induction false} RoundTrip(s: seq<Byte>)
    ensures Decoded(Encoded(s)) == Some(s)
  {
    if s != [] {
      GroupDecodes(s);
      if |s| > 3 {
        RoundTrip(s[3..]);
        DecodedStep(Group(s), Encoded(s[3..]));
        assert s == s[..3] + s[3..];
      } else {
        DecodedStep(Group(s), "");
        assert Group(s) + "" == Group(s) && s + [] == s;
      }
    }
  }

  lemma {:induction false} DecodedStep(g: string, t: string)
    requires |g| == 4 && DecodedGroup(g).Some? && Decoded(t).Some? && (t == "" || |DecodedGroup(g).value| == 3)
    ensures Decoded(g + t) == Some(DecodedGroup(g).value + Decoded(t).value)
  {
  }

  // The decoder takes an encoding of s and nothing else for s.
  lemma {:induction false} DecodedIff(t: string, s: seq<Byte>)
    ensures Decoded(t) == Some(s) <==> t == Encoded(s)
  {
    RoundTrip(s);
    if Decoded(t) == Some(s) {
      DecodedEncodes(t);
    }
  }

  lemma {:induction false} EncodedJoin(group: seq<Byte>, rest: seq<Byte>)
    requires |group| == 3 && rest != []
    ensures Encoded(group + rest) == Group(group) + Encoded(rest)
  {
    var s := group + rest;
    assert s[0] == group[0] && s[1] == group[1] && s[2] == group[2];
    assert s[3..] == rest;
  }

  lemma {:induction false} DecodedEncodes(t: string)
    requires Decoded(t).Some?
    ensures Encoded(Decoded(t).value) == t
  {
    if t != "" {
      DecodedGroupEncodes(t[..4]);
      DecodedEncodes(t[4..]);
      var group, rest, s := DecodedGroup(t[..4]).value, Decoded(t[4..]).value, Decoded(t).value;
      assert t == t[..4] + t[4..];
      if t[4..] == "" {
        assert s == group;
      } else {
        assert rest != [] && s == group + rest;
        EncodedJoin(group, rest);
      }
    }
  }

  lemma {:induction false} EncodedIsInjective(a: seq<Byte>, b: seq<Byte>)
    requires Encoded(a) == Encoded(b)
    ensures a == b
  {
    RoundTrip(a);
    RoundTrip(b);
  }

  lemma {:induction false} EncodedLength(s: seq<Byte>)
    ensures |Encoded(s)| == 4 * ((|s| + 2) / 3)
  {
    if |s| > 3 {
      EncodedLength(s[3..]);
      assert (|s| - 3 + 2) / 3 == (|s| + 2) / 3 - 1;
    }
  }

  lemma GroupPadding(s: seq<Byte>, i: nat)
    requires s != [] && i < 4
    ensures Group(s)[i] == '=' <==> i > |Chunk(s)|
  {
  }

  // How many padding characters n bytes get.
  function Padding(n: nat): nat
  {
    (3 - n % 3) % 3
  }

  // Padding stands at the end only, one character for each byte the last group lacks.
  lemma {:induction false} PaddingIsLast(s: seq<Byte>, i: nat)
    requires i < |Encoded(s)|
    ensures Encoded(s)[i] == '=' <==> i >= |Encoded(s)| - Padding(|s|)
  {
    EncodedLength(s);
    if i < 4 {
      GroupPadding(s, i);
    } else {
      PaddingIsLast(s[3..], i - 4);
      assert Padding(|s|) == Padding(|s| - 3);
    }
  }

  lemma {:induction false} EncodedMore(s: seq<Byte>, more: seq<Byte>)
    requires |s| == 3 && more != []
    ensures Encoded(s + more) == Group(s) + Encoded(more)
  {
    assert (s + more)[3..] == more && Group(s + more) == Group(s);
  }

  lemma FullReferenceGroups()
    ensures Group([102, 111, 111]) == "Zm9v"
    ensures Group([98, 97, 114]) == "YmFy"
    ensures Group([251, 255, 190]) == "+/++"
  {
  }

  lemma ShortReferenceGroups()
    ensures Group([98]) == "Yg=="
    ensures Group([98, 97]) == "YmE="
  {
  }

  // The test vectors of section 10 of RFC 4648 for foob, fooba and foobar.
  lemma {:induction false} ReferenceVectors(s: seq<Byte>, more: seq<Byte>)
    requires s == [102, 111, 111]
    ensures more == [98] ==> Encoded(s + more) == "Zm9vYg=="
    ensures more == [98, 97] ==> Encoded(s + more) == "Zm9vYmE="
    ensures more == [98, 97, 114] ==> Encoded(s + more) == "Zm9vYmFy"
  {
    FullReferenceGroups();
    ShortReferenceGroups();
    if more != [] {
      EncodedMore(s, more);
    }
  }
}
