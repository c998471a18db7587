/** Base64 (support/include/utils/base64.hpp): sections 4 and 5 of RFC 4648, with or without the padding of
    section 3.2. */
module Base64 {
  import opened Bytes

  datatype Error = InvalidLength | InvalidCharacter | InvalidPadding

  datatype Result<+T> = Ok(value: T) | Err(error: Error)

  // ---- alphabets ----

  function Symbol(v: nat, urlSafe: bool): char
    requires v < 64
  {
    if v < 26 then 'A' + v as char
    else if v < 52 then 'a' + (v - 26) as char
    else if v < 62 then '0' + (v - 52) as char
    else if v == 62 then (if urlSafe then '-' else '+')
    else if urlSafe then '_' else '/'
  }

  /** The decoding table takes both alphabets; 64 marks every other character. */
  function TableValue(c: char): (v: nat)
    ensures v <= 64
  {
    if 'A' <= c <= 'Z' then (c - 'A') as nat
    else if 'a' <= c <= 'z' then 26 + (c - 'a') as nat
    else if '0' <= c <= '9' then 52 + (c - '0') as nat
    else if c == '+' || c == '-' then 62
    else if c == '/' || c == '_' then 63
    else 64
  }

  predicate IsSymbol(c: char) {
    TableValue(c) < 64
  }

  predicate InAlphabet(c: char, urlSafe: bool) {
    IsSymbol(c) && c !in (if urlSafe then {'+', '/'} else {'-', '_'})
  }

  lemma SymbolValue(v: nat, urlSafe: bool)
    requires v < 64
    ensures TableValue(Symbol(v, urlSafe)) == v && InAlphabet(Symbol(v, urlSafe), urlSafe)
  {
  }

  lemma ValueSymbol(c: char, urlSafe: bool)
    requires IsSymbol(c)
    ensures Symbol(TableValue(c), urlSafe) == c <==> InAlphabet(c, urlSafe)
  {
  }

  /** The alphabets of sections 4 and 5 of RFC 4648. */
  const STANDARD := "ABCDEFGHIJKLM" + "NOPQRSTUVWXYZ" + "abcdefghijklm" + "nopqrstuvwxyz" + "0123456789+/"

  const URL_SAFE := "ABCDEFGHIJKLM" + "NOPQRSTUVWXYZ" + "abcdefghijklm" + "nopqrstuvwxyz" + "0123456789-_"

  function Alphabet(urlSafe: bool): (r: string)
    ensures |r| == 64
  {
    if urlSafe then URL_SAFE else STANDARD
  }

  lemma SymbolsAre(v: nat, urlSafe: bool)
    requires v < 64
    ensures Symbol(v, urlSafe) == Alphabet(urlSafe)[v]
  {
    hide Symbol, Alphabet;
    AlphabetIs();
    StandardSymbol(v);
    UrlSafeSymbol(v);
  }

  lemma StandardSymbol(v: nat)
    requires v < 64
    ensures Symbol(v, false) == STANDARD[v]
  {
    hide Alphabet;
  }

  lemma UrlSafeSymbol(v: nat)
    requires v < 64
    ensures Symbol(v, true) == URL_SAFE[v]
  {
    hide Alphabet;
  }

  /** The decoding table has exactly the symbols of the two alphabets, each with its place in one of them. */
  lemma ValuesAre(c: char)
    ensures IsSymbol(c) <==> c in STANDARD || c in URL_SAFE
    ensures IsSymbol(c) ==> STANDARD[TableValue(c)] == c || URL_SAFE[TableValue(c)] == c
  {
    hide Symbol, TableValue, Alphabet;
    AlphabetIs();
    if IsSymbol(c) {
      SymbolOfValue(c, false);
      SymbolOfValue(c, true);
      SymbolsAre(TableValue(c), false);
      SymbolsAre(TableValue(c), true);
    }
    if c in STANDARD {
      AlphabetSymbol(c, false);
    }
    if c in URL_SAFE {
      AlphabetSymbol(c, true);
    }
  }

  lemma AlphabetIs()
    ensures Alphabet(false) == STANDARD && Alphabet(true) == URL_SAFE
  {
  }

  lemma SymbolOfValue(c: char, urlSafe: bool)
    requires IsSymbol(c)
    ensures Symbol(TableValue(c), urlSafe) == c || Symbol(TableValue(c), !urlSafe) == c
  {
  }

  lemma AlphabetSymbol(c: char, urlSafe: bool)
    requires c in Alphabet(urlSafe)
    ensures IsSymbol(c)
  {
    hide Symbol, TableValue, Alphabet;
    var v :| 0 <= v < 64 && Alphabet(urlSafe)[v] == c;
    SymbolsAre(v, urlSafe);
    SymbolValue(v, urlSafe);
  }

  // ---- what encoding and decoding mean ----

  function Quartet(b0: byte, b1: byte, b2: byte, urlSafe: bool): string {
    [Symbol(b0 / 4, urlSafe), Symbol(b0 % 4 * 16 + b1 / 16, urlSafe),
     Symbol(b1 % 16 * 4 + b2 / 64, urlSafe), Symbol(b2 % 64, urlSafe)]
  }

  /** The symbols and padding of one or two final bytes. */
  function Remainder(data: seq<byte>, urlSafe: bool, pad: bool): string
    requires 1 <= |data| <= 2
  {
    if |data| == 1 then
      [Symbol(data[0] / 4, urlSafe), Symbol(data[0] % 4 * 16, urlSafe)] + (if pad then ['=', '='] else [])
    else
      [Symbol(data[0] / 4, urlSafe), Symbol(data[0] % 4 * 16 + data[1] / 16, urlSafe),
       Symbol(data[1] % 16 * 4, urlSafe)]
      + (if pad then ['='] else [])
  }

  function Encoded(data: seq<byte>, urlSafe: bool, pad: bool): string {
    if data == [] then ""
    else if |data| < 3 then Remainder(data, urlSafe, pad)
    else Quartet(data[0], data[1], data[2], urlSafe) + Encoded(data[3..], urlSafe, pad)
  }

  // ---- the digits of a text ----

  /** Byte `i`, or zero behind the end. */
  function ByteOrZero(data: seq<byte>, i: nat): nat {
    if i < |data| then data[i] else 0
  }

  /** Digit `p`: the three bytes of its group as one number, most significant first, hold four digits of 64. */
  function Digit(data: seq<byte>, p: nat): (r: nat)
    ensures r < 64
  {
    var g := p / 4 * 3;
    var n := ByteOrZero(data, g) * 0x10000 + ByteOrZero(data, g + 1) * 0x100 + ByteOrZero(data, g + 2);
    if p % 4 == 0 then n / 0x40000 % 64 else if p % 4 == 1 then n / 0x1000 % 64
    else if p % 4 == 2 then n / 0x40 % 64 else n % 64
  }

  /** As many digits as it takes to hold all bits. */
  function DigitCount(n: nat): nat {
    (8 * n + 5) / 6
  }

  /** The text, symbol by symbol: the digits in the alphabet, then padding. */
  predicate IsEncoding(data: seq<byte>, urlSafe: bool, text: string) {
    forall p :: 0 <= p < |text| ==>
      text[p] == if p < DigitCount(|data|) then Alphabet(urlSafe)[Digit(data, p)] else '='
  }

  lemma QuartetDigits(data: seq<byte>, urlSafe: bool)
    requires |data| >= 3
    ensures var q := Quartet(data[0], data[1], data[2], urlSafe);
            |q| == 4 && forall p :: 0 <= p < 4 ==> q[p] == Alphabet(urlSafe)[Digit(data, p)]
  {
    hide Symbol, Alphabet;
    var b0, b1, b2 := data[0], data[1], data[2];
    GroupDigits(b0, b1, b2);
    SymbolsAre(b0 / 4, urlSafe);
    SymbolsAre(b0 % 4 * 16 + b1 / 16, urlSafe);
    SymbolsAre(b1 % 16 * 4 + b2 / 64, urlSafe);
    SymbolsAre(b2 % 64, urlSafe);
  }

  lemma GroupDigits(b0: byte, b1: byte, b2: byte)
    ensures var n: nat := (b0 as int) * 0x10000 + (b1 as int) * 0x100 + b2;
            && n / 0x40000 % 64 == b0 / 4 && n / 0x1000 % 64 == b0 % 4 * 16 + b1 / 16
            && n / 0x40 % 64 == b1 % 16 * 4 + b2 / 64 && n % 64 == b2 % 64
  {
    var x0, x1, x2: nat := b0, b1, b2;
    var d0, d1, d2, d3 := x0 / 4, x0 % 4 * 16 + x1 / 16, x1 % 16 * 4 + x2 / 64, x2 % 64;
    var n := ((d0 * 64 + d1) * 64 + d2) * 64 + d3;
    assert n == x0 * 0x10000 + x1 * 0x100 + x2;
    FourDigits(d0, d1, d2, d3);
  }

  lemma FourDigits(d0: nat, d1: nat, d2: nat, d3: nat)
    requires d0 < 64 && d1 < 64 && d2 < 64 && d3 < 64
    ensures var n := ((d0 * 64 + d1) * 64 + d2) * 64 + d3;
            n / 0x40000 % 64 == d0 && n / 0x1000 % 64 == d1 && n / 0x40 % 64 == d2 && n % 64 == d3
  {
    var n := ((d0 * 64 + d1) * 64 + d2) * 64 + d3;
    assert n == d0 * 0x40000 + (d1 * 0x1000 + d2 * 64 + d3);
    assert n == (d0 * 64 + d1) * 0x1000 + (d2 * 64 + d3);
    assert n == ((d0 * 64 + d1) * 64 + d2) * 64 + d3;
  }

  lemma ShiftedDigit(data: seq<byte>, p: nat)
    requires |data| >= 3 && p >= 4
    ensures Digit(data, p) == Digit(data[3..], p - 4) && DigitCount(|data|) == DigitCount(|data[3..]|) + 4
  {
    assert p / 4 * 3 == (p - 4) / 4 * 3 + 3 && p % 4 == (p - 4) % 4;
  }

  lemma RemainderDigits(data: seq<byte>, urlSafe: bool, pad: bool)
    requires 1 <= |data| <= 2
    ensures IsEncoding(data, urlSafe, Remainder(data, urlSafe, pad))
  {
    hide Symbol, Alphabet;
    var b0, b1: byte := data[0], if |data| > 1 then data[1] else 0;
    GroupDigits(b0, b1, 0);
    SymbolsAre(b0 / 4, urlSafe);
    SymbolsAre(b0 % 4 * 16 + b1 / 16, urlSafe);
    if |data| > 1 {
      SymbolsAre(b1 % 16 * 4, urlSafe);
    }
  }

  /** The encoding is written in the digits of the data, in the alphabet of the RFC, the highest bits first. */
  lemma {:induction false} EncodedDigits(data: seq<byte>, urlSafe: bool, pad: bool)
    ensures IsEncoding(data, urlSafe, Encoded(data, urlSafe, pad))
  {
    hide Symbol, Alphabet, Quartet, Digit, DigitCount;
    if |data| >= 3 {
      EncodedDigits(data[3..], urlSafe, pad);
      QuartetDigits(data, urlSafe);
      FourAtLeast(|data|);
      var text := Encoded(data, urlSafe, pad);
      forall p: nat | 4 <= p < |text|
        ensures text[p] == if p < DigitCount(|data|) then Alphabet(urlSafe)[Digit(data, p)] else '='
      {
        ShiftedDigit(data, p);
        assert text[p] == Encoded(data[3..], urlSafe, pad)[p - 4];
      }
    } else if data != [] {
      RemainderDigits(data, urlSafe, pad);
    }
  }

  lemma FourAtLeast(n: nat)
    requires n >= 3
    ensures DigitCount(n) >= 4
  {
  }

  function Triple(a: nat, b: nat, c: nat, d: nat): nat {
    a * 0x40000 + b * 0x1000 + c * 0x40 + d
  }

  function High(triple: nat): byte {
    triple / 0x10000 % 0x100
  }

  function Middle(triple: nat): byte {
    triple / 0x100 % 0x100
  }

  function Low(triple: nat): byte {
    triple % 0x100
  }

  /** The first `count` bytes of a triple. */
  function Leading(triple: nat, count: nat): (r: seq<byte>)
    requires 1 <= count <= 3
    ensures |r| == count
  {
    if count == 1 then [High(triple)] else if count == 2 then [High(triple), Middle(triple)]
    else [High(triple), Middle(triple), Low(triple)]
  }

  function Prepend(front: seq<byte>, rest: Result<seq<byte>>): Result<seq<byte>> {
    if rest.Ok? then Ok(front + rest.value) else rest
  }

  /** A final quartet that ends in `=`. */
  function DecodedPadded(s: string): Result<seq<byte>>
    requires |s| == 4 && s[3] == '='
  {
    if s[0] == '=' || s[1] == '=' then Err(InvalidPadding)
    else if !IsSymbol(s[0]) || !IsSymbol(s[1]) then Err(InvalidCharacter)
    else if s[2] == '=' then Ok(Leading(Triple(TableValue(s[0]), TableValue(s[1]), 0, 0), 1))
    else if !IsSymbol(s[2]) then Err(InvalidCharacter)
    else Ok(Leading(Triple(TableValue(s[0]), TableValue(s[1]), TableValue(s[2]), 0), 2))
  }

  /** What is left after the full quartets of unpadded text. */
  function DecodedRest(s: string): Result<seq<byte>>
    requires 2 <= |s| <= 3
  {
    if exists i :: 0 <= i < |s| && !IsSymbol(s[i]) then Err(InvalidCharacter)
    else
      Ok(Leading(Triple(TableValue(s[0]), TableValue(s[1]), if |s| == 3 then TableValue(s[2]) else 0, 0), |s| - 1))
  }

  function DecodedBlocks(s: string): Result<seq<byte>>
    requires |s| % 4 != 1
  {
    if s == "" then Ok([])
    else if |s| < 4 then DecodedRest(s)
    else if |s| == 4 && s[3] == '=' then DecodedPadded(s)
    else if !IsSymbol(s[0]) || !IsSymbol(s[1]) || !IsSymbol(s[2]) || !IsSymbol(s[3]) then Err(InvalidCharacter)
    else
      var triple := Triple(TableValue(s[0]), TableValue(s[1]), TableValue(s[2]), TableValue(s[3]));
      FourLess(|s|);
      Prepend(Leading(triple, 3), DecodedBlocks(s[4..]))
  }

  lemma FourLess(n: nat)
    requires n >= 4
    ensures (n - 4) % 4 == n % 4
  {
  }

  function Decoded(s: string): Result<seq<byte>> {
    if |s| % 4 == 1 then Err(InvalidLength) else DecodedBlocks(s)
  }

  // ---- which error ----

  /** The final quartet is marked as padded and has a padding character among its first two. */
  predicate PadsTooEarly(s: string) {
    && |s| >= 4 && |s| % 4 == 0 && s[|s| - 1] == '='
    && (s[|s| - 4] == '=' || s[|s| - 3] == '=')
    && forall i :: 0 <= i < |s| - 4 ==> IsSymbol(s[i])
  }

  lemma {:induction false} BlockErrors(s: string)
    requires |s| % 4 != 1
    ensures DecodedBlocks(s) != Err(InvalidLength)
    ensures DecodedBlocks(s) == Err(InvalidPadding) <==> PadsTooEarly(s)
  {
    hide IsSymbol, TableValue, Leading;
    if |s| > 4 {
      FourLess(|s|);
      BlockErrors(s[4..]);
      PadsLater(s);
    }
  }

  lemma PadsLater(s: string)
    requires |s| > 4 && (|s| - 4) % 4 == |s| % 4
    ensures PadsTooEarly(s) <==>
              |s| >= 8 && PadsTooEarly(s[4..]) && forall i :: 0 <= i < 4 ==> IsSymbol(s[i])
  {
    hide IsSymbol;
    forall i | 4 <= i < |s|
      ensures s[i] == s[4..][i - 4]
    {
    }
  }

  /** A text that does not decode has one symbol too many, or its padding begins too early behind symbols only;
      everything else is an invalid character. */
  lemma ErrorsAre(s: string)
    ensures Decoded(s) == Err(InvalidLength) <==> |s| % 4 == 1
    ensures Decoded(s) == Err(InvalidPadding) <==> PadsTooEarly(s)
  {
    hide DecodedBlocks;
    if |s| % 4 != 1 {
      BlockErrors(s);
    }
  }

  // ---- lengths ----

  function EncodedLength(n: nat, pad: bool): nat {
    if pad then 4 * ((n + 2) / 3)
    else 4 * (n / 3) + (if n % 3 == 0 then 0 else if n % 3 == 1 then 2 else 3)
  }

  lemma {:induction false} EncodedHasLength(data: seq<byte>, urlSafe: bool, pad: bool)
    ensures |Encoded(data, urlSafe, pad)| == EncodedLength(|data|, pad)
  {
    hide Symbol;
    if |data| >= 3 {
      EncodedHasLength(data[3..], urlSafe, pad);
      assert |data| / 3 == |data[3..]| / 3 + 1 && |data| % 3 == |data[3..]| % 3;
      assert (|data| + 2) / 3 == (|data[3..]| + 2) / 3 + 1;
    }
  }

  predicate HasPadding(s: string) {
    |s| % 4 == 0 && |s| >= 4 && s[|s| - 1] == '='
  }

  function DecodedLength(s: string): nat
    requires |s| % 4 != 1
  {
    if HasPadding(s) then |s| / 4 * 3 - 1 - (if s[|s| - 2] == '=' then 1 else 0)
    else |s| / 4 * 3 + (if |s| % 4 == 0 then 0 else if |s| % 4 == 2 then 1 else 2)
  }

  lemma {:induction false} DecodedHasLength(s: string)
    requires |s| % 4 != 1 && DecodedBlocks(s).Ok?
    ensures |DecodedBlocks(s).value| == DecodedLength(s)
  {
    hide TableValue, Triple, Leading;
    if |s| > 4 {
      DecodedHasLength(s[4..]);
      assert |s| / 4 == |s[4..]| / 4 + 1 && |s| % 4 == |s[4..]| % 4;
    }
  }

  // ---- round trip ----

  lemma TripleOfBytes(b0: byte, b1: byte, b2: byte)
    ensures Triple(b0 / 4, b0 % 4 * 16 + b1 / 16, b1 % 16 * 4 + b2 / 64, b2 % 64) == b0 * 0x10000 + b1 * 0x100 + b2
  {
    var q0, r0, q1, r1, q2, r2 := b0 / 4, b0 % 4, b1 / 16, b1 % 16, b2 / 64, b2 % 64;
    assert b0 == q0 * 4 + r0 && b1 == q1 * 16 + r1 && b2 == q2 * 64 + r2;
  }

  lemma BytesOfTriple(b0: byte, b1: byte, b2: byte)
    ensures var t := b0 * 0x10000 + b1 * 0x100 + b2;
            High(t) == b0 && Middle(t) == b1 && Low(t) == b2
  {
    var t := b0 * 0x10000 + b1 * 0x100 + b2;
    assert t / 0x10000 == b0;
    assert t / 0x100 == b0 * 0x100 + b1;
  }

  lemma SextetsBack(b0: byte, b1: byte, b2: byte)
    ensures var t := Triple(b0 / 4, b0 % 4 * 16 + b1 / 16, b1 % 16 * 4 + b2 / 64, b2 % 64);
            Leading(t, 1) == [b0] && Leading(t, 2) == [b0, b1] && Leading(t, 3) == [b0, b1, b2]
  {
    hide High, Middle, Low, Triple;
    TripleOfBytes(b0, b1, b2);
    BytesOfTriple(b0, b1, b2);
  }

  lemma DecodeTwoSymbols(a: char, b: char, pad: bool)
    requires IsSymbol(a) && IsSymbol(b)
    ensures Decoded([a, b] + (if pad then ['=', '='] else [])) ==
            Ok(Leading(Triple(TableValue(a), TableValue(b), 0, 0), 1))
  {
    hide Leading, Triple, TableValue;
    PadIsNoSymbol();
    var s := [a, b] + (if pad then ['=', '='] else []);
    if pad {
      assert s == [a, b, '=', '='];
      assert DecodedBlocks(s) == DecodedPadded(s);
    } else {
      assert s == [a, b];
      assert DecodedBlocks(s) == DecodedRest(s);
    }
  }

  lemma DecodeThreeSymbols(a: char, b: char, c: char, pad: bool)
    requires IsSymbol(a) && IsSymbol(b) && IsSymbol(c)
    ensures Decoded([a, b, c] + (if pad then ['='] else [])) ==
            Ok(Leading(Triple(TableValue(a), TableValue(b), TableValue(c), 0), 2))
  {
    hide Leading, Triple, TableValue;
    PadIsNoSymbol();
    var s := [a, b, c] + (if pad then ['='] else []);
    if pad {
      assert s == [a, b, c, '='];
      assert DecodedBlocks(s) == DecodedPadded(s);
    } else {
      assert s == [a, b, c];
      assert DecodedBlocks(s) == DecodedRest(s);
    }
  }

  lemma DecodeQuartet(a: char, b: char, c: char, d: char, rest: string)
    requires IsSymbol(a) && IsSymbol(b) && IsSymbol(c) && IsSymbol(d) && |rest| % 4 != 1
    ensures var triple := Triple(TableValue(a), TableValue(b), TableValue(c), TableValue(d));
            Decoded([a, b, c, d] + rest) == Prepend(Leading(triple, 3), Decoded(rest))
  {
    hide Leading, Triple, TableValue;
    PadIsNoSymbol();
    assert ([a, b, c, d] + rest)[4..] == rest;
  }

  lemma PadIsNoSymbol()
    ensures TableValue('=') == 64
  {
  }

  lemma RoundTripOne(b0: byte, urlSafe: bool, pad: bool)
    ensures Decoded(Encoded([b0], urlSafe, pad)) == Ok([b0])
  {
    hide Symbol, TableValue, Triple, Leading, Decoded;
    SextetsBack(b0, 0, 0);
    SymbolValue(b0 / 4, urlSafe);
    SymbolValue(b0 % 4 * 16, urlSafe);
    DecodeTwoSymbols(Symbol(b0 / 4, urlSafe), Symbol(b0 % 4 * 16, urlSafe), pad);
  }

  lemma RoundTripTwo(b0: byte, b1: byte, urlSafe: bool, pad: bool)
    ensures Decoded(Encoded([b0, b1], urlSafe, pad)) == Ok([b0, b1])
  {
    hide Symbol, TableValue, Triple, Leading, Decoded;
    SextetsBack(b0, b1, 0);
    SymbolValue(b0 / 4, urlSafe);
    SymbolValue(b0 % 4 * 16 + b1 / 16, urlSafe);
    SymbolValue(b1 % 16 * 4, urlSafe);
    DecodeThreeSymbols(Symbol(b0 / 4, urlSafe), Symbol(b0 % 4 * 16 + b1 / 16, urlSafe), Symbol(b1 % 16 * 4, urlSafe),
                       pad);
  }

  lemma RoundTripBlock(data: seq<byte>, urlSafe: bool, pad: bool)
    requires |data| >= 3 && Decoded(Encoded(data[3..], urlSafe, pad)) == Ok(data[3..])
    ensures Decoded(Encoded(data, urlSafe, pad)) == Ok(data)
  {
    hide Symbol, TableValue, Triple, Leading, DecodedBlocks;
    var b0, b1, b2 := data[0], data[1], data[2];
    SextetsBack(b0, b1, b2);
    SymbolValue(b0 / 4, urlSafe);
    SymbolValue(b0 % 4 * 16 + b1 / 16, urlSafe);
    SymbolValue(b1 % 16 * 4 + b2 / 64, urlSafe);
    SymbolValue(b2 % 64, urlSafe);
    DecodeQuartet(Symbol(b0 / 4, urlSafe), Symbol(b0 % 4 * 16 + b1 / 16, urlSafe),
                  Symbol(b1 % 16 * 4 + b2 / 64, urlSafe), Symbol(b2 % 64, urlSafe), Encoded(data[3..], urlSafe, pad));
    assert data == [b0, b1, b2] + data[3..];
  }

  /** Decoding undoes encoding for every byte string, with either alphabet, padded or not. */
  lemma {:induction false} RoundTrip(data: seq<byte>, urlSafe: bool, pad: bool)
    ensures Decoded(Encoded(data, urlSafe, pad)) == Ok(data)
  {
    hide Decoded, Encoded;
    if |data| >= 3 {
      RoundTrip(data[3..], urlSafe, pad);
      RoundTripBlock(data, urlSafe, pad);
    } else if |data| == 2 {
      assert data == [data[0], data[1]];
      RoundTripTwo(data[0], data[1], urlSafe, pad);
    } else if |data| == 1 {
      assert data == [data[0]];
      RoundTripOne(data[0], urlSafe, pad);
    } else {
      RoundTripNothing(urlSafe, pad);
    }
  }

  lemma RoundTripNothing(urlSafe: bool, pad: bool)
    ensures Decoded(Encoded([], urlSafe, pad)) == Ok([])
  {
  }

  // ---- which texts decode ----

  /** All symbols, in a number that leaves no lone one over; or padded to full quartets with one or two `=`. */
  predicate WellFormed(s: string) {
    exists n :: 0 <= n <= |s| && WellFormedWith(s, n)
  }

  predicate WellFormedWith(s: string, symbols: nat)
    requires symbols <= |s|
  {
    && (forall i :: 0 <= i < symbols ==> IsSymbol(s[i]))
    && (forall i :: symbols <= i < |s| ==> s[i] == '=')
    && (if symbols == |s| then |s| % 4 != 1 else |s| % 4 == 0 && |s| - symbols <= 2)
  }

  lemma QuartetWellFormed(s: string)
    requires |s| >= 4 && !(|s| == 4 && s[3] == '=')
    ensures WellFormed(s) <==>
            IsSymbol(s[0]) && IsSymbol(s[1]) && IsSymbol(s[2]) && IsSymbol(s[3]) && WellFormed(s[4..])
  {
    PadIsNoSymbol();
    if WellFormed(s) {
      var n :| 0 <= n <= |s| && WellFormedWith(s, n);
      assert n >= 4;
      assert WellFormedWith(s[4..], n - 4);
    }
    if IsSymbol(s[0]) && IsSymbol(s[1]) && IsSymbol(s[2]) && IsSymbol(s[3]) && WellFormed(s[4..]) {
      var n :| 0 <= n <= |s[4..]| && WellFormedWith(s[4..], n);
      assert forall i :: 4 <= i < |s| ==> s[i] == s[4..][i - 4];
      assert WellFormedWith(s, n + 4);
    }
  }

  lemma ShortWellFormed(s: string)
    requires |s| < 4 || (|s| == 4 && s[3] == '=')
    ensures WellFormed(s) <==> Decoded(s).Ok?
  {
    hide Leading, Triple;
    PadIsNoSymbol();
    if WellFormed(s) {
      var n :| 0 <= n <= |s| && WellFormedWith(s, n);
    }
    if Decoded(s).Ok? {
      assert WellFormedWith(s, if |s| < 4 then |s| else if s[2] == '=' then 2 else 3);
    }
  }

  /** Exactly the well-formed texts over the two alphabets together decode. */
  lemma {:induction false} DecodesWellFormed(s: string)
    ensures Decoded(s).Ok? <==> WellFormed(s)
  {
    hide Leading, Triple, TableValue, WellFormed, DecodedPadded, DecodedRest;
    if |s| < 4 || (|s| == 4 && s[3] == '=') {
      ShortWellFormed(s);
    } else {
      QuartetWellFormed(s);
      DecodesWellFormed(s[4..]);
    }
  }

  // ---- which texts are what encoding produces ----

  /** The bits of the final symbol that belong to no byte are zero. */
  predicate UnusedBitsZero(s: string, symbols: nat)
    requires symbols <= |s|
  {
    && (symbols % 4 == 2 ==> TableValue(s[symbols - 1]) % 16 == 0)
    && (symbols % 4 == 3 ==> TableValue(s[symbols - 1]) % 4 == 0)
  }

  /** `symbols` counts the characters before the padding. */
  predicate Canonical(s: string, symbols: nat, urlSafe: bool, pad: bool)
    requires symbols <= |s|
  {
    && (forall i :: 0 <= i < symbols ==> InAlphabet(s[i], urlSafe))
    && UnusedBitsZero(s, symbols)
    && (if pad then |s| % 4 == 0 else symbols == |s|)
  }

  lemma TripleSplit(a: nat, b: nat, c: nat, d: nat)
    ensures Triple(a, b, c, d) == (a * 4 + b / 16) * 0x10000 + (b % 16 * 16 + c / 4) * 0x100 + (c % 4 * 64 + d)
  {
    var p, q, r, s := b / 16, b % 16, c / 4, c % 4;
    assert b == p * 16 + q && c == r * 4 + s;
  }

  lemma SextetsOfTriple(a: nat, b: nat, c: nat, d: nat)
    requires a < 64 && b < 64 && c < 64 && d < 64
    ensures var t := Triple(a, b, c, d);
            High(t) == a * 4 + b / 16 && Middle(t) == b % 16 * 16 + c / 4 && Low(t) == c % 4 * 64 + d
  {
    hide High, Middle, Low;
    var high: byte, middle: byte, low: byte := a * 4 + b / 16, b % 16 * 16 + c / 4, c % 4 * 64 + d;
    TripleSplit(a, b, c, d);
    BytesOfTriple(high, middle, low);
  }

  /** The six-bit values encoding cuts the bytes of a triple into. */
  lemma SextetsAgain(a: nat, b: nat, c: nat, d: nat)
    requires a < 64 && b < 64 && c < 64 && d < 64
    ensures var t := Triple(a, b, c, d);
            && High(t) / 4 == a && High(t) % 4 * 16 + Middle(t) / 16 == b
            && Middle(t) % 16 * 4 + Low(t) / 64 == c && Low(t) % 64 == d
            && High(t) % 4 * 16 == b / 16 * 16 && Middle(t) % 16 * 4 == c / 4 * 4
  {
    hide Triple, High, Middle, Low;
    SextetsOfTriple(a, b, c, d);
    assert (a * 4 + b / 16) / 4 == a && (a * 4 + b / 16) % 4 == b / 16;
    assert (b % 16 * 16 + c / 4) / 16 == b % 16 && (b % 16 * 16 + c / 4) % 16 == c / 4;
    assert (c % 4 * 64 + d) / 64 == c % 4 && (c % 4 * 64 + d) % 64 == d;
  }

  lemma QuartetBack(a: char, b: char, c: char, d: char, urlSafe: bool)
    requires IsSymbol(a) && IsSymbol(b) && IsSymbol(c) && IsSymbol(d)
    ensures var bytes := Leading(Triple(TableValue(a), TableValue(b), TableValue(c), TableValue(d)), 3);
            Quartet(bytes[0], bytes[1], bytes[2], urlSafe) == [a, b, c, d] <==>
            InAlphabet(a, urlSafe) && InAlphabet(b, urlSafe) && InAlphabet(c, urlSafe) && InAlphabet(d, urlSafe)
  {
    hide Symbol, TableValue, InAlphabet, Triple, High, Middle, Low;
    SextetsAgain(TableValue(a), TableValue(b), TableValue(c), TableValue(d));
    ValueSymbol(a, urlSafe);
    ValueSymbol(b, urlSafe);
    ValueSymbol(c, urlSafe);
    ValueSymbol(d, urlSafe);
  }

  lemma TwoBack(a: char, b: char, urlSafe: bool, pad: bool)
    requires IsSymbol(a) && IsSymbol(b)
    ensures Remainder(Leading(Triple(TableValue(a), TableValue(b), 0, 0), 1), urlSafe, pad)[..2] == [a, b] <==>
            InAlphabet(a, urlSafe) && InAlphabet(b, urlSafe) && TableValue(b) % 16 == 0
  {
    hide Symbol, TableValue, InAlphabet, Triple, High, Middle, Low;
    SextetsAgain(TableValue(a), TableValue(b), 0, 0);
    ValueSymbol(a, urlSafe);
    ValueSymbol(b, urlSafe);
    SymbolValue(TableValue(b) / 16 * 16, urlSafe);
  }

  lemma ThreeBack(a: char, b: char, c: char, urlSafe: bool, pad: bool)
    requires IsSymbol(a) && IsSymbol(b) && IsSymbol(c)
    ensures Remainder(Leading(Triple(TableValue(a), TableValue(b), TableValue(c), 0), 2), urlSafe, pad)[..3] ==
            [a, b, c] <==>
            InAlphabet(a, urlSafe) && InAlphabet(b, urlSafe) && InAlphabet(c, urlSafe) && TableValue(c) % 4 == 0
  {
    hide Symbol, TableValue, InAlphabet, Triple, High, Middle, Low;
    SextetsAgain(TableValue(a), TableValue(b), TableValue(c), 0);
    ValueSymbol(a, urlSafe);
    ValueSymbol(b, urlSafe);
    ValueSymbol(c, urlSafe);
    SymbolValue(TableValue(c) / 4 * 4, urlSafe);
  }

  lemma TailBack(s: string, symbols: nat, urlSafe: bool, pad: bool)
    requires 2 <= symbols <= 3 && symbols <= |s| && WellFormedWith(s, symbols)
    ensures Decoded(s).Ok?
    ensures Encoded(Decoded(s).value, urlSafe, pad) == s <==> Canonical(s, symbols, urlSafe, pad)
  {
    hide Triple, Leading, TableValue, InAlphabet, Symbol;
    PadIsNoSymbol();
    var r := if symbols == 2 then Remainder(Leading(Triple(TableValue(s[0]), TableValue(s[1]), 0, 0), 1), urlSafe, pad)
             else Remainder(Leading(Triple(TableValue(s[0]), TableValue(s[1]), TableValue(s[2]), 0), 2), urlSafe, pad);
    if symbols == 2 {
      TwoBack(s[0], s[1], urlSafe, pad);
    } else {
      ThreeBack(s[0], s[1], s[2], urlSafe, pad);
    }
    assert s[..symbols] == if symbols == 2 then [s[0], s[1]] else [s[0], s[1], s[2]];
    assert DecodedBlocks(s) == if |s| == 4 then DecodedPadded(s) else DecodedRest(s);
    assert Encoded(Decoded(s).value, urlSafe, pad) == r;
    assert r == s <==> r[..symbols] == s[..symbols] && |r| == |s|;
  }

  lemma BlockBack(s: string, symbols: nat, urlSafe: bool, pad: bool)
    requires 4 <= symbols <= |s| && WellFormedWith(s, symbols)
    requires Decoded(s[4..]).Ok?
    requires Encoded(Decoded(s[4..]).value, urlSafe, pad) == s[4..] <==> Canonical(s[4..], symbols - 4, urlSafe, pad)
    ensures Decoded(s).Ok?
    ensures Encoded(Decoded(s).value, urlSafe, pad) == s <==> Canonical(s, symbols, urlSafe, pad)
  {
    hide Triple, High, Middle, Low, TableValue, InAlphabet, Symbol, DecodedPadded, DecodedRest, Canonical, Quartet,
         Remainder;
    PadIsNoSymbol();
    var a, b, c, d := s[0], s[1], s[2], s[3];
    QuartetBack(a, b, c, d, urlSafe);
    CanonicalBlock(s, symbols, urlSafe, pad);
    var bytes := Leading(Triple(TableValue(a), TableValue(b), TableValue(c), TableValue(d)), 3);
    var rest := Decoded(s[4..]).value;
    assert s == [a, b, c, d] + s[4..];
    assert Decoded(s) == Ok(bytes + rest);
    assert (bytes + rest)[3..] == rest;
    var q := Quartet(bytes[0], bytes[1], bytes[2], urlSafe);
    QuartetLength(bytes[0], bytes[1], bytes[2], urlSafe);
    assert Encoded(bytes + rest, urlSafe, pad) == q + Encoded(rest, urlSafe, pad);
    assert q + Encoded(rest, urlSafe, pad) == s <==> q == [a, b, c, d] && Encoded(rest, urlSafe, pad) == s[4..] by {
      if q + Encoded(rest, urlSafe, pad) == s {
        assert q == s[..4] && Encoded(rest, urlSafe, pad) == s[4..];
      }
    }
  }

  lemma CanonicalBlock(s: string, symbols: nat, urlSafe: bool, pad: bool)
    requires 4 <= symbols <= |s|
    ensures Canonical(s, symbols, urlSafe, pad) <==>
            InAlphabet(s[0], urlSafe) && InAlphabet(s[1], urlSafe) &&
            InAlphabet(s[2], urlSafe) && InAlphabet(s[3], urlSafe) &&
            Canonical(s[4..], symbols - 4, urlSafe, pad)
  {
    hide TableValue, InAlphabet;
    var t := s[4..];
    assert |s| % 4 == |t| % 4 && (symbols - 4) % 4 == symbols % 4 by {
      FourLess(|s|);
      FourLess(symbols);
    }
    assert forall i :: 0 <= i < |t| ==> t[i] == s[i + 4];
    assert forall i :: 4 <= i < |s| ==> s[i] == t[i - 4];
  }

  /** Several texts decode to the same bytes; encoding these bytes again gives back exactly the canonical one,
      which uses one alphabet and leaves the unused bits zero. */
  lemma {:induction false} EncodeOfDecode(s: string, symbols: nat, urlSafe: bool, pad: bool)
    requires symbols <= |s| && WellFormedWith(s, symbols)
    ensures Decoded(s).Ok?
    ensures Encoded(Decoded(s).value, urlSafe, pad) == s <==> Canonical(s, symbols, urlSafe, pad)
  {
    hide Decoded, Encoded, Canonical;
    if symbols >= 4 {
      WellFormedBlock(s, symbols);
      EncodeOfDecode(s[4..], symbols - 4, urlSafe, pad);
      BlockBack(s, symbols, urlSafe, pad);
    } else if symbols >= 2 {
      TailBack(s, symbols, urlSafe, pad);
    } else {
      NothingBack(s, symbols, urlSafe, pad);
    }
  }

  lemma WellFormedBlock(s: string, symbols: nat)
    requires 4 <= symbols <= |s| && WellFormedWith(s, symbols)
    ensures WellFormedWith(s[4..], symbols - 4)
  {
  }

  lemma NothingBack(s: string, symbols: nat, urlSafe: bool, pad: bool)
    requires symbols <= |s| && symbols < 2 && WellFormedWith(s, symbols)
    ensures Decoded(s).Ok?
    ensures Encoded(Decoded(s).value, urlSafe, pad) == s <==> Canonical(s, symbols, urlSafe, pad)
  {
    assert s == "";
  }

  // ---- file names ----

  /** Text in the URL alphabet without padding holds neither `/` nor `.`, and is empty for no data only. */
  lemma {:induction false} UrlSafeText(data: seq<byte>)
    ensures forall c :: c in Encoded(data, true, false) ==> InAlphabet(c, true)
    ensures Encoded(data, true, false) == "" <==> data == []
  {
    hide Symbol, InAlphabet;
    var b0, b1 := if |data| > 0 then data[0] else 0, if |data| > 1 then data[1] else 0;
    var b2 := if |data| > 2 then data[2] else 0;
    SymbolValue(b0 / 4, true);
    SymbolValue(b0 % 4 * 16, true);
    SymbolValue(b0 % 4 * 16 + b1 / 16, true);
    SymbolValue(b1 % 16 * 4, true);
    SymbolValue(b1 % 16 * 4 + b2 / 64, true);
    SymbolValue(b2 % 64, true);
    if |data| >= 3 {
      UrlSafeText(data[3..]);
    }
  }

  // ---- the two algorithms ----

  method EncodeBlock(out: array<char>, p: nat, b0: byte, b1: byte, b2: byte, urlSafe: bool)
    requires p + 4 <= out.Length
    modifies out
    ensures out[..p + 4] == old(out[..p]) + Quartet(b0, b1, b2, urlSafe)
  {
    hide Symbol;
    out[p] := Symbol(b0 / 4, urlSafe);
    out[p + 1] := Symbol(b0 % 4 * 16 + b1 / 16, urlSafe);
    out[p + 2] := Symbol(b1 % 16 * 4 + b2 / 64, urlSafe);
    out[p + 3] := Symbol(b2 % 64, urlSafe);
  }

  method EncodeRemainder(out: array<char>, p: nat, data: seq<byte>, i: nat, urlSafe: bool, pad: bool)
    requires i < |data| <= i + 2
    requires p + |Remainder(data[i..], urlSafe, pad)| == out.Length
    modifies out
    ensures out[..] == old(out[..p]) + Remainder(data[i..], urlSafe, pad)
  {
    hide Symbol;
    if |data| - i == 1 {
      var b0 := data[i];
      out[p] := Symbol(b0 / 4, urlSafe);
      out[p + 1] := Symbol(b0 % 4 * 16, urlSafe);
      if pad {
        out[p + 2], out[p + 3] := '=', '=';
      }
    } else {
      var b0, b1 := data[i], data[i + 1];
      out[p] := Symbol(b0 / 4, urlSafe);
      out[p + 1] := Symbol(b0 % 4 * 16 + b1 / 16, urlSafe);
      out[p + 2] := Symbol(b1 % 16 * 4, urlSafe);
      if pad {
        out[p + 3] := '=';
      }
    }
  }

  /** The buffer of the precomputed length is filled exactly. */
  method Encode(data: seq<byte>, urlSafe: bool, pad: bool) returns (text: string)
    ensures text == Encoded(data, urlSafe, pad)
  {
    hide Symbol, Quartet, Remainder;
    if |data| == 0 {
      return "";
    }
    var outLen := EncodedLength(|data|, pad);
    var out := new char[outLen];
    var p, i := 0, 0;
    EncodedHasLength(data, urlSafe, pad);
    while i + 2 < |data|
      invariant i <= |data|
      invariant p + |Encoded(data[i..], urlSafe, pad)| == outLen
      invariant out[..p] + Encoded(data[i..], urlSafe, pad) == Encoded(data, urlSafe, pad)
    {
      assert data[i..][3..] == data[i + 3..];
      QuartetLength(data[i], data[i + 1], data[i + 2], urlSafe);
      EncodeBlock(out, p, data[i], data[i + 1], data[i + 2], urlSafe);
      p, i := p + 4, i + 3;
    }
    if i < |data| {
      EncodeRemainder(out, p, data, i, urlSafe, pad);
    }
    text := out[..];
  }

  lemma QuartetLength(b0: byte, b1: byte, b2: byte, urlSafe: bool)
    ensures |Quartet(b0, b1, b2, urlSafe)| == 4
  {
  }

  /** Store the first `count` bytes of a triple, as far as the buffer has room for them. */
  method PutTriple(out: array<byte>, j: nat, triple: nat, count: nat) returns (next: nat)
    requires j <= out.Length && 1 <= count <= 3
    modifies out
    ensures next == Min(j + count, out.Length)
    ensures out[..next] == old(out[..j]) + Leading(triple, count)[..next - j]
  {
    hide High, Middle, Low;
    next := j;
    if next < out.Length {
      out[next] := High(triple);
      next := next + 1;
    }
    if count > 1 && next < out.Length {
      out[next] := Middle(triple);
      next := next + 1;
    }
    if count > 2 && next < out.Length {
      out[next] := Low(triple);
      next := next + 1;
    }
  }

  lemma WholeSlice(s: seq<byte>)
    ensures s[..|s|] == s
  {
  }

  lemma PrependTwice(a: seq<byte>, b: seq<byte>, r: Result<seq<byte>>)
    ensures Prepend(a, Prepend(b, r)) == Prepend(a + b, r)
    ensures Prepend([], r) == r
  {
    if r.Ok? {
      assert a + (b + r.value) == a + b + r.value;
      assert [] + r.value == r.value;
    }
  }

  /** `DecodedBlocks` unfolded at a full quartet. */
  lemma QuartetAt(s: string, i: nat)
    requires i + 4 <= |s| && (|s| - i) % 4 != 1 && !(|s| - i == 4 && s[i + 3] == '=')
    ensures var triple := Triple(TableValue(s[i]), TableValue(s[i + 1]), TableValue(s[i + 2]), TableValue(s[i + 3]));
            DecodedBlocks(s[i..]) ==
            if !IsSymbol(s[i]) || !IsSymbol(s[i + 1]) || !IsSymbol(s[i + 2]) || !IsSymbol(s[i + 3])
            then Err(InvalidCharacter)
            else Prepend(Leading(triple, 3), DecodedBlocks(s[i + 4..]))
    ensures DecodedLength(s[i..]) == 3 + DecodedLength(s[i + 4..])
  {
    hide Leading, Triple, TableValue;
    assert s[i..][4..] == s[i + 4..];
  }

  /** `DecodedBlocks` unfolded at the padded quartet or the remainder. */
  lemma TailAt(s: string, i: nat)
    requires i < |s| && ((|s| - i == 4 && s[|s| - 1] == '=') || 2 <= |s| - i <= 3)
    ensures |s| - i == 4 ==> DecodedBlocks(s[i..]) == DecodedPadded(s[i..])
    ensures |s| - i < 4 ==> DecodedBlocks(s[i..]) == DecodedRest(s[i..])
    ensures DecodedBlocks(s[i..]).Ok? ==> |DecodedBlocks(s[i..]).value| == DecodedLength(s[i..])
  {
    BlocksHaveLength(s[i..]);
  }

  lemma BlocksHaveLength(s: string)
    requires |s| % 4 != 1
    ensures DecodedBlocks(s).Ok? ==> |DecodedBlocks(s).value| == DecodedLength(s)
  {
    if DecodedBlocks(s).Ok? {
      DecodedHasLength(s);
    }
  }

  /** The padded quartet: the text ends in `=`, so the fourth character is padding. */
  method DecodePadded(s: string, i: nat, out: array<byte>, j: nat) returns (r: Result<seq<byte>>)
    requires i + 4 == |s| && s[i + 3] == '='
    requires j <= out.Length
    requires DecodedPadded(s[i..]).Ok? ==> j + |DecodedPadded(s[i..]).value| == out.Length
    modifies out
    ensures r == Prepend(old(out[..j]), DecodedPadded(s[i..]))
  {
    hide Leading, Triple, TableValue;
    var thirdIsPad := s[i + 2] == '=';
    if s[i] == '=' || s[i + 1] == '=' {
      return Err(InvalidPadding);
    }
    if !IsSymbol(s[i]) || !IsSymbol(s[i + 1]) || (!thirdIsPad && !IsSymbol(s[i + 2])) {
      return Err(InvalidCharacter);
    }
    var c := if thirdIsPad then 0 else TableValue(s[i + 2]);
    var next := PutTriple(out, j, Triple(TableValue(s[i]), TableValue(s[i + 1]), c, 0), if thirdIsPad then 1 else 2);
    assert out[..next] == out[..];
    WholeSlice(Leading(Triple(TableValue(s[i]), TableValue(s[i + 1]), c, 0), if thirdIsPad then 1 else 2));
    r := Ok(out[..]);
  }

  method DecodeRest(s: string, i: nat, out: array<byte>, j: nat) returns (r: Result<seq<byte>>)
    requires i < |s| && 2 <= |s| - i <= 3
    requires j <= out.Length
    requires DecodedRest(s[i..]).Ok? ==> j + |DecodedRest(s[i..]).value| == out.Length
    modifies out
    ensures r == Prepend(old(out[..j]), DecodedRest(s[i..]))
  {
    hide Leading, Triple, TableValue;
    var left := |s| - i;
    if !IsSymbol(s[i]) || !IsSymbol(s[i + 1]) || (left == 3 && !IsSymbol(s[i + 2])) {
      return Err(InvalidCharacter);
    }
    var c := if left == 3 then TableValue(s[i + 2]) else 0;
    var next := PutTriple(out, j, Triple(TableValue(s[i]), TableValue(s[i + 1]), c, 0), left - 1);
    assert out[..next] == out[..];
    WholeSlice(Leading(Triple(TableValue(s[i]), TableValue(s[i + 1]), c, 0), left - 1));
    r := Ok(out[..]);
  }

  /** The checks that there is room in the buffer never drop a byte, and the errors are those of `Decoded`. */
  method Decode(s: string) returns (r: Result<seq<byte>>)
    ensures r == Decoded(s)
  {
    hide Leading, Triple, TableValue, DecodedBlocks, DecodedPadded, DecodedRest, DecodedLength, Prepend, OnQuartet;
    if |s| == 0 {
      DecodedNothing();
      return Ok([]);
    }
    var rem := |s| % 4;
    var hasPadding := rem == 0 && |s| >= 4 && s[|s| - 1] == '=';
    if !hasPadding && rem == 1 {
      return Err(InvalidLength);
    }
    var outLen := DecodedLength(s);
    var out := new byte[outLen];
    var i, j: nat := 0, 0;
    var lastFull := if hasPadding then |s| - 4 else |s| - rem;
    FullQuartets(|s|, rem, lastFull);
    assert s[0..] == s;
    assert out[..0] == [];
    PrependTwice([], [], DecodedBlocks(s));
    while i + 4 <= lastFull
      invariant OnQuartet(i, lastFull, rem, |s|) && j <= outLen
      invariant i <= |s| && (|s| - i) % 4 == rem
      invariant j + DecodedLength(s[i..]) == outLen
      invariant Prepend(out[..j], DecodedBlocks(s[i..])) == DecodedBlocks(s)
    {
      NextQuartet(i, lastFull, rem, |s|);
      QuartetAt(s, i);
      if !IsSymbol(s[i]) || !IsSymbol(s[i + 1]) || !IsSymbol(s[i + 2]) || !IsSymbol(s[i + 3]) {
        ErrorsPass(out[..j], InvalidCharacter);
        return Err(InvalidCharacter);
      }
      var triple := Triple(TableValue(s[i]), TableValue(s[i + 1]), TableValue(s[i + 2]), TableValue(s[i + 3]));
      PrependTwice(out[..j], Leading(triple, 3), DecodedBlocks(s[i + 4..]));
      WholeSlice(Leading(triple, 3));
      j := PutTriple(out, j, triple, 3);
      i := i + 4;
    }
    QuartetsDone(i, lastFull, rem, |s|);
    if i < |s| {
      TailAt(s, i);
      if |s| - i == 4 {
        r := DecodePadded(s, i, out, j);
      } else {
        r := DecodeRest(s, i, out, j);
      }
    } else {
      DecodedNothing();
      assert out[..j] == out[..];
      r := Ok(out[..]);
    }
  }

  /** `i` counts whole quartets, up to `lastFull` of a text of `n` characters with `rem` over. */
  predicate OnQuartet(i: nat, lastFull: nat, rem: nat, n: nat) {
    i <= lastFull <= n && i % 4 == 0 && lastFull % 4 == 0 && rem == n % 4 &&
    (lastFull == n - rem || (rem == 0 && lastFull + 4 == n))
  }

  lemma FullQuartets(n: nat, rem: nat, lastFull: nat)
    requires rem == n % 4 && (lastFull == n - rem || (rem == 0 && lastFull + 4 == n))
    ensures OnQuartet(0, lastFull, rem, n)
  {
  }

  lemma NextQuartet(i: nat, lastFull: nat, rem: nat, n: nat)
    requires OnQuartet(i, lastFull, rem, n) && i + 4 <= lastFull
    ensures OnQuartet(i + 4, lastFull, rem, n) && lastFull <= n && (n - i) % 4 == (n - (i + 4)) % 4 == rem
    ensures n - i == 4 ==> lastFull == n
  {
  }

  lemma QuartetsDone(i: nat, lastFull: nat, rem: nat, n: nat)
    requires OnQuartet(i, lastFull, rem, n) && i + 4 > lastFull
    ensures i == lastFull && (n - i == rem || (rem == 0 && n - i == 4))
  {
  }

  lemma ErrorsPass(front: seq<byte>, e: Error)
    ensures Prepend(front, Err(e)) == Err(e)
  {
  }

  lemma DecodedNothing()
    ensures DecodedBlocks("") == Ok([]) && DecodedLength("") == 0
    ensures forall front :: Prepend(front, Ok([])) == Ok(front)
  {
    assert forall front: seq<byte> :: front + [] == front;
  }
}
