/**
 Base64url without padding (section 5 of RFC 4648), the strict decoder beside it,
 and the check of a diagnostics token built from the two.
 */
module Base64Url {
  import opened Common

  type Byte = x: int | 0 <= x < 256
  type Sextet = x: int | 0 <= x < 64

  const PAD := '='

  // ----- the alphabet -----

  datatype Symbol = Digit(value: Sextet) | Padding | Foreign

  function Letter(symbol: Symbol): char
    requires !symbol.Foreign?
  {
    match symbol
    case Digit(x) =>
      if x < 26 then 'A' + x as char
      else if x < 52 then 'a' + (x - 26) as char
      else if x < 62 then '0' + (x - 52) as char
      else if x == 62 then '-'
      else '_'
    case Padding => PAD
  }

  /** The decoder rewrites `-` and `_` to `+` and `/`, so it accepts all four. */
  function SymbolOf(c: char): Symbol {
    if 'A' <= c <= 'Z' then Digit((c - 'A') as int)
    else if 'a' <= c <= 'z' then Digit((c - 'a') as int + 26)
    else if '0' <= c <= '9' then Digit((c - '0') as int + 52)
    else if c == '-' || c == '+' then Digit(62)
    else if c == '_' || c == '/' then Digit(63)
    else if c == PAD then Padding
    else Foreign
  }

  /** The unreserved characters a code verifier may use (section 4.1 of RFC 7636). */
  predicate Unreserved(c: char) {
    'A' <= c <= 'Z' || 'a' <= c <= 'z' || '0' <= c <= '9' || c in {'-', '.', '_', '~'}
  }

  lemma LetterInverts(symbol: Symbol)
    requires !symbol.Foreign?
    ensures SymbolOf(Letter(symbol)) == symbol
    ensures symbol.Digit? ==> Unreserved(Letter(symbol)) && Letter(symbol) != PAD
  {
  }

  predicate Writable(symbols: seq<Symbol>) {
    forall i :: 0 <= i < |symbols| ==> !symbols[i].Foreign?
  }

  function Text(symbols: seq<Symbol>): string
    requires Writable(symbols)
  {
    seq(|symbols|, i requires 0 <= i < |symbols| => Letter(symbols[i]))
  }

  function Symbols(s: string): seq<Symbol> {
    seq(|s|, i requires 0 <= i < |s| => SymbolOf(s[i]))
  }

  lemma TextInverts(symbols: seq<Symbol>)
    requires Writable(symbols)
    ensures Symbols(Text(symbols)) == symbols
  {
    forall i | 0 <= i < |symbols| ensures Symbols(Text(symbols))[i] == symbols[i] {
      LetterInverts(symbols[i]);
    }
  }

  // ----- three bytes as four sextets -----

  function First(x: Byte): Sextet { x / 4 }
  function Second(x: Byte, y: Byte): Sextet { x % 4 * 16 + y / 16 }
  function Third(y: Byte, z: Byte): Sextet { y % 16 * 4 + z / 64 }
  function Fourth(z: Byte): Sextet { z % 64 }

  function Byte0(a: int, b: int): Byte
    requires 0 <= a < 64 && 0 <= b < 64
  { a * 4 + b / 16 }

  function Byte1(b: int, c: int): Byte
    requires 0 <= b < 64 && 0 <= c < 64
  { b % 16 * 16 + c / 4 }

  function Byte2(c: int, d: int): Byte
    requires 0 <= c < 64 && 0 <= d < 64
  { c % 4 * 64 + d }

  lemma GroupInverts(x: Byte, y: Byte, z: Byte)
    ensures Byte0(First(x), Second(x, y)) == x
    ensures Byte1(Second(x, y), Third(y, z)) == y
    ensures Byte2(Third(y, z), Fourth(z)) == z
  {
  }

  // ----- encoding -----

  function Group(x: Byte, y: Byte, z: Byte): seq<Symbol> {
    [Digit(First(x)), Digit(Second(x, y)), Digit(Third(y, z)), Digit(Fourth(z))]
  }

  /** The symbols before the padding. */
  function Digits(bytes: seq<Byte>): (symbols: seq<Symbol>)
    ensures forall i :: 0 <= i < |symbols| ==> symbols[i].Digit?
  {
    if bytes == [] then []
    else if |bytes| == 1 then [Digit(First(bytes[0])), Digit(Second(bytes[0], 0))]
    else if |bytes| == 2 then [Digit(First(bytes[0])), Digit(Second(bytes[0], bytes[1])), Digit(Third(bytes[1], 0))]
    else Group(bytes[0], bytes[1], bytes[2]) + Digits(bytes[3..])
  }

  function PadCount(n: nat): nat {
    if n < 3 then (if n == 0 then 0 else 3 - n) else PadCount(n - 3)
  }

  lemma {:induction false} Counts(bytes: seq<Byte>)
    ensures |Digits(bytes)| == (4 * |bytes| + 2) / 3
    ensures PadCount(|bytes|) == (3 - |bytes| % 3) % 3
  {
    if |bytes| >= 3 {
      Counts(bytes[3..]);
    }
  }

  function Pads(n: nat): string {
    seq(n, _ => PAD)
  }

  function EncodePadded(bytes: seq<Byte>): string {
    Text(Digits(bytes)) + Pads(PadCount(|bytes|))
  }

  function StripPadding(s: string): string {
    if s != "" && s[|s| - 1] == PAD then StripPadding(s[..|s| - 1]) else s
  }

  function Encode(bytes: seq<Byte>): string {
    StripPadding(EncodePadded(bytes))
  }

  // ----- strict decoding -----

  /** Whole groups of four; only the last may end in padding, and leftover bits are not looked at. */
  function DecodeSymbols(s: seq<Symbol>): Option<seq<Byte>> {
    if s == [] then Some([])
    else if |s| < 4 then None
    else
      match (s[0], s[1], s[2], s[3])
      case (Digit(a), Digit(b), Digit(c), Digit(d)) =>
        (match DecodeSymbols(s[4..])
         case None => None
         case Some(rest) => Some([Byte0(a, b), Byte1(b, c), Byte2(c, d)] + rest))
      case (Digit(a), Digit(b), Digit(c), Padding) =>
        if |s| == 4 then Some([Byte0(a, b), Byte1(b, c)]) else None
      case (Digit(a), Digit(b), Padding, Padding) =>
        if |s| == 4 then Some([Byte0(a, b)]) else None
      case _ => None
  }

  function Decode(s: string): Option<seq<Byte>> {
    DecodeSymbols(Symbols(s))
  }

  function Paddings(n: nat): seq<Symbol> {
    seq(n, _ => Padding)
  }

  lemma {:induction false} DecodeGroup(x: Byte, y: Byte, z: Byte, rest: seq<Symbol>, tail: seq<Byte>)
    requires DecodeSymbols(rest) == Some(tail)
    ensures DecodeSymbols(Group(x, y, z) + rest) == Some([x, y, z] + tail)
  {
    var s := Group(x, y, z) + rest;
    assert s[4..] == rest;
    GroupInverts(x, y, z);
  }

  lemma {:induction false} DecodeOne(x: Byte, y: Byte)
    ensures DecodeSymbols([Digit(First(x)), Digit(Second(x, y)), Padding, Padding]) == Some([x])
  {
    GroupInverts(x, y, y);
  }

  lemma {:induction false} DecodeTwo(x: Byte, y: Byte, z: Byte)
    ensures DecodeSymbols([Digit(First(x)), Digit(Second(x, y)), Digit(Third(y, z)), Padding]) == Some([x, y])
  {
    GroupInverts(x, y, z);
  }

  lemma {:induction false} DecodeUndoesDigits(bytes: seq<Byte>)
    ensures DecodeSymbols(Digits(bytes) + Paddings(PadCount(|bytes|))) == Some(bytes)
  {
    var s := Digits(bytes) + Paddings(PadCount(|bytes|));
    if bytes == [] {
      assert s == [];
    } else if |bytes| == 1 {
      DecodeOne(bytes[0], 0);
      assert s == [Digit(First(bytes[0])), Digit(Second(bytes[0], 0)), Padding, Padding];
      assert bytes == [bytes[0]];
    } else if |bytes| == 2 {
      DecodeTwo(bytes[0], bytes[1], 0);
      assert s == [Digit(First(bytes[0])), Digit(Second(bytes[0], bytes[1])), Digit(Third(bytes[1], 0)), Padding];
      assert bytes == [bytes[0], bytes[1]];
    } else {
      var rest := Digits(bytes[3..]) + Paddings(PadCount(|bytes| - 3));
      DecodeUndoesDigits(bytes[3..]);
      DecodeGroup(bytes[0], bytes[1], bytes[2], rest, bytes[3..]);
      assert s == Group(bytes[0], bytes[1], bytes[2]) + rest;
      assert bytes == [bytes[0], bytes[1], bytes[2]] + bytes[3..];
    }
  }

  // ----- the unpadded form -----

  predicate AllUnreserved(s: string) {
    forall i :: 0 <= i < |s| ==> Unreserved(s[i])
  }

  lemma {:induction false} StripRemovesPads(body: string, n: nat)
    requires body == "" || body[|body| - 1] != PAD
    ensures StripPadding(body + Pads(n)) == body
  {
    if n == 0 {
      assert body + Pads(0) == body;
    } else {
      var s := body + Pads(n);
      assert s[..|s| - 1] == body + Pads(n - 1);
      StripRemovesPads(body, n - 1);
    }
  }

  /** Encoding drops the padding and nothing else: its length and its characters, for all bytes. */
  lemma {:induction false} EncodeShape(bytes: seq<Byte>)
    ensures Encode(bytes) == Text(Digits(bytes))
    ensures |Encode(bytes)| == (4 * |bytes| + 2) / 3
    ensures AllUnreserved(Encode(bytes))
  {
    var body := Text(Digits(bytes));
    Counts(bytes);
    forall i | 0 <= i < |body| ensures Unreserved(body[i]) && body[i] != PAD {
      LetterInverts(Digits(bytes)[i]);
    }
    StripRemovesPads(body, PadCount(|bytes|));
  }

  /** Decoding the re-padded text gives the bytes back. */
  lemma {:induction false} RoundTrip(bytes: seq<Byte>)
    ensures Decode(Encode(bytes) + Pads(PadCount(|bytes|))) == Some(bytes)
  {
    var digits, n := Digits(bytes), PadCount(|bytes|);
    EncodeShape(bytes);
    TextInverts(digits);
    var s := Text(digits) + Pads(n);
    assert Symbols(s) == Symbols(Text(digits)) + Paddings(n);
    DecodeUndoesDigits(bytes);
  }

  lemma EncodeGroup(x: Byte, y: Byte, z: Byte, rest: seq<Byte>)
    ensures Encode([x, y, z] + rest)
         == [Letter(Digit(First(x))), Letter(Digit(Second(x, y))), Letter(Digit(Third(y, z))), Letter(Digit(Fourth(z)))]
            + Encode(rest)
  {
    var bytes := [x, y, z] + rest;
    assert bytes[3..] == rest;
    EncodeShape(bytes);
    EncodeShape(rest);
    assert Digits(bytes) == Group(x, y, z) + Digits(rest);
  }

  lemma EncodeOne(x: Byte)
    ensures Encode([x]) == [Letter(Digit(First(x))), Letter(Digit(Second(x, 0)))]
  {
    EncodeShape([x]);
  }

  lemma EncodeTwo(x: Byte, y: Byte)
    ensures Encode([x, y]) == [Letter(Digit(First(x))), Letter(Digit(Second(x, y))), Letter(Digit(Third(y, 0)))]
  {
    EncodeShape([x, y]);
  }

  lemma ExampleOfThree()
    ensures Encode([0x66, 0x6f, 0x6f]) == "Zm9v"
  {
    EncodeGroup(0x66, 0x6f, 0x6f, []);
    EncodeShape([]);
    assert First(0x66) == 25 && Second(0x66, 0x6f) == 38 && Third(0x6f, 0x6f) == 61 && Fourth(0x6f) == 47;
    assert [0x66, 0x6f, 0x6f] + [] == [0x66, 0x6f, 0x6f];
    assert "Zm9v" + Encode([]) == "Zm9v";
  }

  lemma ExampleOfTwo()
    ensures Encode([0x66, 0x6f]) == "Zm8" && Encode([0x66]) == "Zg"
  {
    EncodeOne(0x66);
    EncodeTwo(0x66, 0x6f);
    assert First(0x66) == 25 && Second(0x66, 0) == 32 && Second(0x66, 0x6f) == 38 && Third(0x6f, 0) == 60;
  }

  lemma ExampleOfUrls()
    ensures Encode([0xfb, 0xff]) == "-_8"
  {
    EncodeTwo(0xfb, 0xff);
    assert First(0xfb) == 62 && Second(0xfb, 0xff) == 63 && Third(0xff, 0) == 60;
  }

  /** Examples of section 10 of RFC 4648, and one that uses the two characters of the URL-safe alphabet. */
  lemma RfcExamples()
    ensures Encode([0x66]) == "Zg" && Encode([0x66, 0x6f]) == "Zm8" && Encode([0x66, 0x6f, 0x6f]) == "Zm9v"
    ensures Encode([0xfb, 0xff]) == "-_8"
  {
    ExampleOfTwo();
    ExampleOfThree();
    ExampleOfUrls();
  }

  /** Different byte sequences have different encodings. */
  lemma {:induction false} EncodeInjective(a: seq<Byte>, b: seq<Byte>)
    requires Encode(a) == Encode(b)
    ensures a == b
  {
    EncodeShape(a);
    EncodeShape(b);
    assert |a| == |b|;
    RoundTrip(a);
    RoundTrip(b);
  }

  /** A verifier made of 32 random bytes: 43 unreserved characters. */
  lemma {:induction false} VerifierShape(bytes: seq<Byte>)
    requires |bytes| == 32
    ensures |Encode(bytes)| == 43 && AllUnreserved(Encode(bytes))
  {
    EncodeShape(bytes);
  }

  // ----- diagnostics tokens -----

  predicate IsCanonicalToken(token: string) {
    if "st-" <= token then
      var encoded := token[3..];
      match Decode(encoded + [PAD])
      case None => false
      case Some(decoded) => |decoded| == 32 && Encode(decoded) == encoded
    else false
  }

  ghost predicate IsTokenOf(token: string, bytes: seq<Byte>) {
    |bytes| == 32 && token == "st-" + Encode(bytes)
  }

  /** A token is accepted exactly when it spells some 32 bytes, and then it spells only those. */
  lemma {:induction false} TokenCharacterization(token: string)
    ensures IsCanonicalToken(token) <==> exists bytes :: IsTokenOf(token, bytes)
    ensures forall a, b :: IsTokenOf(token, a) && IsTokenOf(token, b) ==> a == b
  {
    if IsCanonicalToken(token) {
      var bytes := Decode(token[3..] + [PAD]).value;
      assert token == "st-" + token[3..];
      assert IsTokenOf(token, bytes);
    }
    forall bytes | IsTokenOf(token, bytes) ensures IsCanonicalToken(token) {
      RoundTrip(bytes);
      Counts(bytes);
      assert token[3..] == Encode(bytes);
      assert Pads(PadCount(32)) == [PAD];
    }
    forall a, b | IsTokenOf(token, a) && IsTokenOf(token, b) ensures a == b {
      assert Encode(a) == token[3..] == Encode(b);
      EncodeInjective(a, b);
    }
  }
}
