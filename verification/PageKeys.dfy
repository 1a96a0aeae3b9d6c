/** Page cursors: a name's bytes in hexadecimal. */
module PageKeys {
  import opened Options

  type Byte = b: int | 0 <= b < 256

  /** Character codes. */
  const PLUS: Byte := 43
  const ZERO: Byte := 48
  const NINE: Byte := 57
  const UPPER_A: Byte := 65
  const UPPER_F: Byte := 70
  const LOWER_A: Byte := 97
  const LOWER_F: Byte := 102

  datatype Decoded = Key(bytes: seq<Byte>) | InvalidCursor | Panic

  function HexDigit(n: int): Byte
    requires 0 <= n < 16
  {
    if n < 10 then ZERO + n else LOWER_A + n - 10
  }

  /** Two lower-case digits for each byte. */
  function Encode(bytes: seq<Byte>): (text: seq<Byte>)
    ensures |text| == 2 * |bytes|
  {
    if bytes == [] then [] else [HexDigit(bytes[0] / 16), HexDigit(bytes[0] % 16)] + Encode(bytes[1..])
  }

  /** Digits of either case. */
  function DigitValue(c: Byte): (v: Option<nat>)
    ensures v.Some? ==> v.value < 16
  {
    if ZERO <= c <= NINE then Some(c - ZERO)
    else if LOWER_A <= c <= LOWER_F then Some(c - LOWER_A + 10)
    else if UPPER_A <= c <= UPPER_F then Some(c - UPPER_A + 10)
    else None
  }

  /** Radix parsing of two bytes; a leading plus sign is accepted. */
  function ParsePair(high: Byte, low: Byte): (v: Option<Byte>) {
    var l := DigitValue(low);
    if l.None? then None
    else if high == PLUS then Some(l.value)
    else
      var h := DigitValue(high);
      if h.None? then None else Some(16 * h.value + l.value)
  }

  /** A continuation byte of a multi-byte character: no slice may end or begin before it. */
  predicate IsContinuation(b: Byte) {
    0x80 <= b < 0xC0
  }

  /** Pair by pair; the first bad pair ends the decoding, and a slice inside a character panics. */
  function DecodePairs(text: seq<Byte>): Decoded
    requires |text| % 2 == 0
    decreases |text|
  {
    if text == [] then Key([])
    else if |text| > 2 && IsContinuation(text[2]) then Panic
    else
      var pair := ParsePair(text[0], text[1]);
      if pair.None? then InvalidCursor
      else
        match DecodePairs(text[2..])
        case Key(bytes) => Key([pair.value] + bytes)
        case other => other
  }

  /** `isText` says whether bytes form a character string. */
  function Decode(text: seq<Byte>, isText: seq<Byte> -> bool): Decoded {
    if |text| % 2 != 0 then InvalidCursor
    else
      match DecodePairs(text)
      case Key(bytes) => if isText(bytes) then Key(bytes) else InvalidCursor
      case other => other
  }

  lemma DigitsRoundTrip(n: int)
    requires 0 <= n < 16
    ensures DigitValue(HexDigit(n)) == Some(n) && !IsContinuation(HexDigit(n)) && HexDigit(n) != PLUS
  {
  }

  lemma PairRoundTrip(b: Byte)
    ensures ParsePair(HexDigit(b / 16), HexDigit(b % 16)) == Some(b)
  {
    DigitsRoundTrip(b / 16);
    DigitsRoundTrip(b % 16);
    assert 16 * (b / 16) + b % 16 == b;
  }

  lemma {:induction false} PairsUndoEncoding(bytes: seq<Byte>)
    ensures DecodePairs(Encode(bytes)) == Key(bytes)
    ensures bytes != [] ==> !IsContinuation(Encode(bytes)[0])
    decreases |bytes|
  {
    if bytes != [] {
      var text := Encode(bytes);
      PairRoundTrip(bytes[0]);
      DigitsRoundTrip(bytes[0] / 16);
      PairsUndoEncoding(bytes[1..]);
      hide ParsePair, HexDigit, IsContinuation;
      assert text[2..] == Encode(bytes[1..]);
      assert bytes[1..] != [] ==> text[2] == Encode(bytes[1..])[0];
      assert [bytes[0]] + bytes[1..] == bytes;
    }
  }

  /** Decoding undoes encoding, and never panics on an encoded key. */
  lemma DecodingUndoesEncoding(bytes: seq<Byte>, isText: seq<Byte> -> bool)
    ensures Decode(Encode(bytes), isText) == if isText(bytes) then Key(bytes) else InvalidCursor
  {
    PairsUndoEncoding(bytes);
    hide DecodePairs, Encode;
  }

  predicate IsLowerHex(text: seq<Byte>) {
    forall i :: 0 <= i < |text| ==> IsLowerDigit(text[i])
  }

  predicate IsLowerDigit(c: Byte) {
    ZERO <= c <= NINE || LOWER_A <= c <= LOWER_F
  }

  lemma LowerPair(high: Byte, low: Byte)
    requires IsLowerDigit(high) && IsLowerDigit(low)
    ensures var pair := ParsePair(high, low); pair.Some? && HexDigit(pair.value / 16) == high && HexDigit(pair.value % 16) == low
    ensures !IsContinuation(high)
  {
    var h, l := DigitValue(high).value, DigitValue(low).value;
    assert (16 * h + l) / 16 == h && (16 * h + l) % 16 == l;
  }

  lemma {:induction false} LowerHexDecodes(text: seq<Byte>)
    requires IsLowerHex(text) && |text| % 2 == 0
    ensures DecodePairs(text).Key? && Encode(DecodePairs(text).bytes) == text
    decreases |text|
  {
    if text != [] {
      var rest := text[2..];
      assert forall i :: 0 <= i < |rest| ==> rest[i] == text[i + 2];
      LowerPair(text[0], text[1]);
      if |text| > 2 {
        LowerPair(text[2], text[3]);
      }
      LowerHexDecodes(rest);
      hide ParsePair, HexDigit, IsContinuation, IsLowerDigit;
      var pair := ParsePair(text[0], text[1]).value;
      assert DecodePairs(text) == Key([pair] + DecodePairs(rest).bytes);
      assert ([pair] + DecodePairs(rest).bytes)[1..] == DecodePairs(rest).bytes;
      assert text == [text[0], text[1]] + rest;
    }
  }

  /** A cursor is one that encoding could have produced exactly when it is of even length and in lower-case digits. */
  lemma IsEncodedIff(text: seq<Byte>)
    ensures (exists bytes :: Encode(bytes) == text) <==> |text| % 2 == 0 && IsLowerHex(text)
  {
    if |text| % 2 == 0 && IsLowerHex(text) {
      LowerHexDecodes(text);
      assert Encode(DecodePairs(text).bytes) == text;
    }
    if bytes :| Encode(bytes) == text {
      EncodingIsLowerHex(bytes);
    }
  }

  lemma {:induction false} EncodingIsLowerHex(bytes: seq<Byte>)
    ensures IsLowerHex(Encode(bytes))
  {
    if bytes != [] {
      EncodingIsLowerHex(bytes[1..]);
      assert IsLowerDigit(HexDigit(bytes[0] / 16)) && IsLowerDigit(HexDigit(bytes[0] % 16));
    }
  }

  predicate Parses(text: seq<Byte>, i: nat)
    requires 2 * i + 1 < |text|
  {
    ParsePair(text[2 * i], text[2 * i + 1]).Some?
  }

  predicate AllParse(text: seq<Byte>) {
    forall i :: 0 <= i < |text| / 2 ==> Parses(text, i)
  }

  function ValueAt(text: seq<Byte>, i: nat): Byte
    requires 2 * i + 1 < |text| && Parses(text, i)
  {
    ParsePair(text[2 * i], text[2 * i + 1]).value
  }

  /** The byte each pair stands for. */
  function Values(text: seq<Byte>): (bytes: seq<Byte>)
    requires AllParse(text)
  {
    seq<Byte>(|text| / 2, (i: nat) requires i < |text| / 2 && AllParse(text) => (assert Parses(text, i); ValueAt(text, i)))
  }

  /** The pair before this place ends inside a character, and all pairs before that one parse. */
  predicate PanicsAt(text: seq<Byte>, k: nat) {
    0 < k && 2 * k < |text| && IsContinuation(text[2 * k]) && forall i :: 0 <= i < k - 1 ==> Parses(text, i)
  }

  lemma ParsesLater(text: seq<Byte>, i: nat)
    requires 2 * i + 3 < |text|
    ensures Parses(text[2..], i) <==> Parses(text, i + 1)
  {
  }

  lemma ParsedIsAscii(high: Byte, low: Byte)
    ensures ParsePair(high, low).Some? ==> high < 0x80 && low < 0x80
  {
  }

  lemma PanicsLater(text: seq<Byte>, k: nat)
    requires |text| % 2 == 0 && text != [] && Parses(text, 0)
    ensures k > 0 ==> (PanicsAt(text[2..], k) <==> PanicsAt(text, k + 1))
  {
    hide Parses;
    if k > 0 && 2 * k + 2 < |text| {
      assert text[2..][2 * k] == text[2 * (k + 1)];
      forall i | 0 <= i < k - 1 ensures Parses(text[2..], i) <==> Parses(text, i + 1) {
        ParsesLater(text, i);
      }
      if PanicsAt(text[2..], k) {
        forall i | 0 <= i < k ensures Parses(text, i) {
          assert i > 0 ==> Parses(text[2..], i - 1);
        }
      }
    }
  }

  /** Decoding panics exactly when some pair ends inside a character and every pair before that one parses. */
  lemma {:induction false} PairsPanicIff(text: seq<Byte>)
    requires |text| % 2 == 0
    ensures DecodePairs(text) == Panic <==> exists k: nat :: PanicsAt(text, k)
    decreases |text|
  {
    if text != [] {
      PairsPanicIff(text[2..]);
      if |text| > 2 && IsContinuation(text[2]) {
        assert PanicsAt(text, 1);
      } else if !Parses(text, 0) {
        forall k: nat ensures !PanicsAt(text, k) {
          if k > 1 && 2 * k < |text| {
            assert 0 <= 0 < k - 1 && !Parses(text, 0);
          }
        }
      } else {
        if k: nat :| PanicsAt(text[2..], k) {
          PanicsLater(text, k);
        }
        if k: nat :| PanicsAt(text, k) {
          assert k > 1;
          PanicsLater(text, k - 1);
        }
        assert DecodePairs(text) == Panic <==> DecodePairs(text[2..]) == Panic;
      }
    }
  }

  lemma {:induction false} PairsParseIff(text: seq<Byte>)
    requires |text| % 2 == 0
    ensures DecodePairs(text).Key? <==> AllParse(text)
    ensures AllParse(text) ==> DecodePairs(text) == Key(Values(text))
    decreases |text|
  {
    if text != [] {
      var rest := text[2..];
      PairsParseIff(rest);
      AllParseIff(text);
      if AllParse(text) {
        ValuesOfPairs(text);
        if |text| > 2 {
          assert Parses(rest, 0);
          ParsedIsAscii(text[2], text[3]);
        }
      }
      hide AllParse, Values, ParsePair;
    } else {
      assert Values(text) == [];
    }
  }

  lemma AllParseIff(text: seq<Byte>)
    requires |text| % 2 == 0 && text != []
    ensures AllParse(text) <==> Parses(text, 0) && AllParse(text[2..])
  {
    forall i | 0 <= i < |text[2..]| / 2 ensures Parses(text[2..], i) <==> Parses(text, i + 1) {
      ParsesLater(text, i);
    }
    hide Parses;
    if AllParse(text[2..]) && Parses(text, 0) {
      forall i | 0 <= i < |text| / 2 ensures Parses(text, i) {
        assert i > 0 ==> Parses(text[2..], i - 1);
      }
    }
    if AllParse(text) {
      forall i | 0 <= i < |text[2..]| / 2 ensures Parses(text[2..], i) {
        assert Parses(text, i + 1);
      }
    }
  }

  lemma ValuesOfPairs(text: seq<Byte>)
    requires |text| % 2 == 0 && text != [] && AllParse(text) && AllParse(text[2..])
    ensures Parses(text, 0) && Values(text) == [ValueAt(text, 0)] + Values(text[2..])
  {
    hide ParsePair;
    assert Parses(text, 0);
  }

  /**
    What decoding does with any text: it yields exactly the bytes the pairs stand for, when there is an even number of
    digits, every pair parses and the bytes are text; it panics exactly when a pair that is reached ends inside a
    character; anything else is refused.
   */
  lemma DecodingIsExact(text: seq<Byte>, isText: seq<Byte> -> bool)
    ensures var result := Decode(text, isText);
            && (result.Key? <==> |text| % 2 == 0 && AllParse(text) && isText(Values(text)))
            && (result.Key? ==> result.bytes == Values(text))
            && (result.Panic? <==> |text| % 2 == 0 && exists k: nat :: PanicsAt(text, k))
  {
    if |text| % 2 == 0 {
      PairsParseIff(text);
      PairsPanicIff(text);
    }
    hide AllParse, Values, PanicsAt, DecodePairs;
  }

  // ------------------------------------------------------------------- characters and digits, independently

  /** A Unicode code point. */
  type Character = c: int | 0 <= c < 0x110000

  /** The bytes of one character (section 3 of RFC 3629). */
  function Utf8(c: Character): seq<Byte> {
    if c < 0x80 then [c]
    else if c < 0x800 then [0xC0 + c / 64, 0x80 + c % 64]
    else if c < 0x10000 then [0xE0 + c / 4096, 0x80 + c / 64 % 64, 0x80 + c % 64]
    else [0xF0 + c / 262144, 0x80 + c / 4096 % 64, 0x80 + c / 64 % 64, 0x80 + c % 64]
  }

  function Utf8Text(characters: seq<Character>): seq<Byte> {
    if characters == [] then [] else Utf8(characters[0]) + Utf8Text(characters[1..])
  }

  /** Before this place a whole number of characters ends. */
  predicate IsBoundary(characters: seq<Character>, i: nat) {
    exists n: nat :: n <= |characters| && |Utf8Text(characters[..n])| == i
  }

  lemma OneCharacter(c: Character, i: nat)
    requires i < |Utf8(c)|
    ensures IsContinuation(Utf8(c)[i]) <==> i > 0
  {
  }

  lemma FirstOf(characters: seq<Character>, n: nat)
    requires 0 < n <= |characters|
    ensures Utf8Text(characters[..n]) == Utf8(characters[0]) + Utf8Text(characters[1..][..n - 1])
  {
    assert characters[..n][1..] == characters[1..][..n - 1];
  }

  lemma BoundaryLater(characters: seq<Character>, i: nat)
    requires characters != [] && i >= |Utf8(characters[0])|
    ensures IsBoundary(characters, i) <==> IsBoundary(characters[1..], i - |Utf8(characters[0])|)
  {
    var skip := |Utf8(characters[0])|;
    if n: nat :| n <= |characters| && |Utf8Text(characters[..n])| == i {
      assert n > 0;
      FirstOf(characters, n);
      assert |Utf8Text(characters[1..][..n - 1])| == i - skip;
    }
    if n: nat :| n <= |characters[1..]| && |Utf8Text(characters[1..][..n])| == i - skip {
      FirstOf(characters, n + 1);
      assert |Utf8Text(characters[..n + 1])| == i;
    }
  }

  lemma BoundaryInFirst(characters: seq<Character>, i: nat)
    requires characters != [] && i < |Utf8(characters[0])|
    ensures IsBoundary(characters, i) <==> i == 0
  {
    assert Utf8Text(characters[..0]) == [];
    if n: nat :| n <= |characters| && |Utf8Text(characters[..n])| == i {
      if n > 0 {
        FirstOf(characters, n);
      }
    }
  }

  /** In a text, the continuation bytes are exactly those before which no character ends. */
  lemma {:induction false} ContinuationIff(characters: seq<Character>, i: nat)
    requires i < |Utf8Text(characters)|
    ensures IsContinuation(Utf8Text(characters)[i]) <==> !IsBoundary(characters, i)
    decreases |characters|
  {
    hide Utf8, IsContinuation, IsBoundary;
    if i < |Utf8(characters[0])| {
      OneCharacter(characters[0], i);
      BoundaryInFirst(characters, i);
    } else {
      BoundaryLater(characters, i);
      ContinuationIff(characters[1..], i - |Utf8(characters[0])|);
    }
  }

  /** The pair before this place ends inside a character, and all pairs before that one parse. */
  predicate SplitsCharacterAt(characters: seq<Character>, k: nat) {
    && 0 < k && 2 * k < |Utf8Text(characters)| && !IsBoundary(characters, 2 * k)
    && forall i :: 0 <= i < k - 1 ==> Parses(Utf8Text(characters), i)
  }

  lemma SplitsIff(characters: seq<Character>, k: nat)
    ensures PanicsAt(Utf8Text(characters), k) <==> SplitsCharacterAt(characters, k)
  {
    hide IsContinuation, IsBoundary, Parses, Utf8Text;
    if 2 * k < |Utf8Text(characters)| {
      ContinuationIff(characters, 2 * k);
    }
  }

  /** So decoding a text panics exactly when a pair ends inside one of its characters and every pair before that one parses. */
  lemma TextPanicsIff(characters: seq<Character>, isText: seq<Byte> -> bool)
    ensures Decode(Utf8Text(characters), isText) == Panic
       <==> |Utf8Text(characters)| % 2 == 0 && exists k: nat :: SplitsCharacterAt(characters, k)
  {
    hide Decode, PanicsAt, SplitsCharacterAt, Utf8Text, Values;
    DecodingIsExact(Utf8Text(characters), isText);
    forall k: nat ensures PanicsAt(Utf8Text(characters), k) <==> SplitsCharacterAt(characters, k) {
      SplitsIff(characters, k);
    }
  }

  const LOWER_DIGITS: seq<Byte> := [48, 49, 50, 51, 52, 53, 54, 55, 56, 57, 97, 98, 99, 100, 101, 102]
  const UPPER_DIGITS: seq<Byte> := [48, 49, 50, 51, 52, 53, 54, 55, 56, 57, 65, 66, 67, 68, 69, 70]

  lemma DigitIff(c: Byte, v: nat)
    requires v < 16
    ensures DigitValue(c) == Some(v) <==> c == LOWER_DIGITS[v] || c == UPPER_DIGITS[v]
  {
  }

  /** The byte of a pair of digits in either case, of which the first may be a plus sign for nought. */
  lemma PairIff(high: Byte, low: Byte, b: Byte)
    ensures ParsePair(high, low) == Some(b)
       <==> (low == LOWER_DIGITS[b % 16] || low == UPPER_DIGITS[b % 16])
            && (high == LOWER_DIGITS[b / 16] || high == UPPER_DIGITS[b / 16] || (high == PLUS && b < 16))
  {
    DigitIff(low, b % 16);
    DigitIff(high, b / 16);
    PairIs(high, low, b);
    hide DigitValue, ParsePair;
  }

  lemma PairIs(high: Byte, low: Byte, b: Byte)
    ensures ParsePair(high, low) == Some(b)
       <==> DigitValue(low) == Some(b % 16) && (DigitValue(high) == Some(b / 16) || (high == PLUS && b < 16))
  {
    var h, l := DigitValue(high), DigitValue(low);
    assert DigitValue(PLUS) == None;
    hide DigitValue;
    if h.Some? && l.Some? {
      assert (16 * h.value + l.value) / 16 == h.value && (16 * h.value + l.value) % 16 == l.value;
    }
  }

  /** A cursor in ASCII never panics. */
  lemma AsciiNeverPanics(text: seq<Byte>, isText: seq<Byte> -> bool)
    requires forall i :: 0 <= i < |text| ==> text[i] < 0x80
    ensures Decode(text, isText) != Panic
  {
    DecodingIsExact(text, isText);
    forall k: nat ensures !PanicsAt(text, k) {
    }
  }

  /** Some cursors nobody encoded decode all the same, and one that splits a character panics. */
  lemma LenientAndFragile(isText: seq<Byte> -> bool)
    requires isText([15])
    ensures Decode([PLUS, LOWER_F], isText) == Decode([ZERO, UPPER_F], isText) == Key([15])
    ensures Decode([ZERO, 0xE2, 0x82, 0xAC], isText) == Panic
  {
    assert [PLUS, LOWER_F][2..] == [] && [ZERO, UPPER_F][2..] == [];
    assert DecodePairs([]) == Key([]) && [15] + [] == [15];
    assert ParsePair(PLUS, LOWER_F) == Some(15) && ParsePair(ZERO, UPPER_F) == Some(15);
    assert DecodePairs([PLUS, LOWER_F]) == Key([15]) && DecodePairs([ZERO, UPPER_F]) == Key([15]);
  }
}
