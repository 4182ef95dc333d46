/**
 App Attest key identifiers: base64 in every accepted spelling, one canonical identity
 (internal/attest/attest.go:275-336). Alphabets and padding follow sections 3.5, 4 and 5 of RFC 4648;
 the decoder is the lenient one of the Go library: CR and LF are ignored, trailing pad bits too.
 */
module KeyId {
  import opened Names
  import opened Wrappers

  const SHA256_SIZE := 32

  type byte = n: int | 0 <= n < 256
  type sextet = n: int | 0 <= n < 64

  // ---- alphabets -------------------------------------------------------------------

  datatype Alphabet = Std | Url

  function CharOf(a: Alphabet, n: sextet): char {
    if n < 26 then 'A' + n as char
    else if n < 52 then 'a' + (n - 26) as char
    else if n < 62 then '0' + (n - 52) as char
    else if n == 62 then (if a.Std? then '+' else '-')
    else if a.Std? then '/' else '_'
  }

  function IndexOf(a: Alphabet, c: char): Option<sextet> {
    if 'A' <= c <= 'Z' then Some((c - 'A') as int)
    else if 'a' <= c <= 'z' then Some((c - 'a') as int + 26)
    else if '0' <= c <= '9' then Some((c - '0') as int + 52)
    else if c == (if a.Std? then '+' else '-') then Some(62)
    else if c == (if a.Std? then '/' else '_') then Some(63)
    else None
  }

  lemma IndexInvertsChar(a: Alphabet, n: sextet, c: char)
    ensures IndexOf(a, CharOf(a, n)) == Some(n)
    ensures IndexOf(a, c) == Some(n) ==> c == CharOf(a, n)
  {}

  /** A character both alphabets know has the same value in both. */
  lemma AlphabetsAgree(a: Alphabet, b: Alphabet, c: char)
    requires IndexOf(a, c).Some? && IndexOf(b, c).Some?
    ensures IndexOf(a, c) == IndexOf(b, c)
  {}

  function Chars(a: Alphabet, q: seq<sextet>): (s: string)
    ensures |s| == |q|
  {
    if q == [] then [] else [CharOf(a, q[0])] + Chars(a, q[1..])
  }

  function Sextets(a: Alphabet, s: string): Option<seq<sextet>> {
    if s == [] then Some([])
    else match (IndexOf(a, s[0]), Sextets(a, s[1..]))
      case (Some(n), Some(rest)) => Some([n] + rest)
      case _ => None
  }

  lemma {:induction false} SextetsInvertChars(a: Alphabet, s: string, q: seq<sextet>)
    ensures Sextets(a, s) == Some(q) <==> s == Chars(a, q)
  {
    if s == [] || q == [] {
      assert s == [] && q != [] ==> |Chars(a, q)| > 0;
    } else {
      IndexInvertsChar(a, q[0], s[0]);
      SextetsInvertChars(a, s[1..], q[1..]);
      assert s == [s[0]] + s[1..] && q == [q[0]] + q[1..];
      assert Chars(a, q)[1..] == Chars(a, q[1..]);
    }
  }

  lemma {:induction false} SextetsAgree(a: Alphabet, b: Alphabet, s: string)
    requires Sextets(a, s).Some? && Sextets(b, s).Some?
    ensures Sextets(a, s) == Sextets(b, s)
  {
    if s != [] {
      AlphabetsAgree(a, b, s[0]);
      SextetsAgree(a, b, s[1..]);
    }
  }

  // ---- bytes and sextets -----------------------------------------------------------

  function ToSextets(b: seq<byte>): seq<sextet> {
    if |b| == 0 then []
    else if |b| == 1 then [b[0] / 4, b[0] % 4 * 16]
    else if |b| == 2 then [b[0] / 4, b[0] % 4 * 16 + b[1] / 16, b[1] % 16 * 4]
    else [b[0] / 4, b[0] % 4 * 16 + b[1] / 16, b[1] % 16 * 4 + b[2] / 64, b[2] % 64] + ToSextets(b[3..])
  }

  /** The bytes of the first group. */
  function Byte0(q: seq<sextet>): byte
    requires |q| >= 2
  {
    q[0] as int * 4 + q[1] / 16
  }

  function Byte1(q: seq<sextet>): byte
    requires |q| >= 3
  {
    q[1] as int % 16 * 16 + q[2] / 4
  }

  function Byte2(q: seq<sextet>): byte
    requires |q| >= 4
  {
    q[2] as int % 4 * 64 + q[3]
  }

  /** The decoder: a lone sextet is an error, the unused low bits of a last partial group are dropped. */
  function FromSextets(q: seq<sextet>): Option<seq<byte>> {
    if |q| == 0 then Some([])
    else if |q| == 1 then None
    else
      var b0 := Byte0(q);
      if |q| == 2 then Some([b0])
      else
        var b1 := Byte1(q);
        if |q| == 3 then Some([b0, b1])
        else
          var b2 := Byte2(q);
          match FromSextets(q[4..])
          case Some(rest) => Some([b0, b1, b2] + rest)
          case None => None
  }

  /** How many values the last sextet may take without changing what is decoded. */
  function PadValues(len: nat): (n: int)
    ensures n == 1 || n == 4 || n == 16
  {
    if len % 4 == 2 then 16 else if len % 4 == 3 then 4 else 1
  }

  predicate SameUpToPad(q: seq<sextet>, r: seq<sextet>) {
    |q| == |r| && (q != [] ==>
      q[..|q| - 1] == r[..|r| - 1] && q[|q| - 1] / PadValues(|q|) == r[|r| - 1] / PadValues(|q|))
  }

  lemma {:induction false} SextetCount(b: seq<byte>)
    ensures |ToSextets(b)| == (|b| * 4 + 2) / 3
  {
    if |b| >= 3 { SextetCount(b[3..]); }
  }

  /** Two prefixes are equal exactly when their first `k` members and what follows these are. */
  lemma SamePrefix<T>(q: seq<T>, r: seq<T>, k: nat, m: nat)
    requires k <= m <= |q| == |r|
    ensures q[..m] == r[..m] <==> q[..k] == r[..k] && q[k..][..m - k] == r[k..][..m - k]
  {
    assert q[..m] == q[..k] + q[k..][..m - k] && r[..m] == r[..k] + r[k..][..m - k];
    assert q[..m][..k] == q[..k] && r[..m][..k] == r[..k];
    assert q[..m][k..] == q[k..][..m - k] && r[..m][k..] == r[k..][..m - k];
  }

  lemma SameUpToPadTail(q: seq<sextet>, r: seq<sextet>)
    requires |q| == |r| >= 4
    ensures SameUpToPad(q, r) <==> q[..4] == r[..4] && SameUpToPad(q[4..], r[4..])
  {
    if |q| > 4 {
      SamePrefix(q, r, 4, |q| - 1);
      assert |q| - 1 - 4 == |q| - 4 - 1;
      assert q[|q| - 1] == q[4..][|q| - 5] && r[|q| - 1] == r[4..][|q| - 5];
      assert PadValues(|q|) == PadValues(|q| - 4);
    } else {
      assert q[..4] == q[..3] + [q[3]] && r[..4] == r[..3] + [r[3]];
    }
  }

  /** Two ways to write a number with a last digit below `d` are one. */
  lemma SameDigits(d: int, h: int, l: int, c: int, e: int)
    requires (d == 4 || d == 16 || d == 64) && 0 <= l < d && 0 <= e < d
    ensures h * d + l == c * d + e <==> h == c && l == e
  {
    if d == 4 { assert h * 4 + l == c * 4 + e <==> h == c && l == e; }
    if d == 16 { assert h * 16 + l == c * 16 + e <==> h == c && l == e; }
    if d == 64 { assert h * 64 + l == c * 64 + e <==> h == c && l == e; }
  }

  /** Four sextets and three bytes carry the same information; two and three sextets up to the pad bits. */
  lemma GroupIff(q0: sextet, q1: sextet, q2: sextet, q3: sextet, b0: byte, b1: byte, b2: byte)
    ensures q0 * 4 + q1 / 16 == b0 && q1 % 16 * 16 + q2 / 4 == b1 && q2 % 4 * 64 + q3 == b2
      <==> q0 == b0 / 4 && q1 == b0 % 4 * 16 + b1 / 16 && q2 == b1 % 16 * 4 + b2 / 64 && q3 == b2 % 64
  {
    var h1, l1, h2, l2 := q1 / 16, q1 % 16, q2 / 4, q2 % 4;
    var c0, d0, c1, d1, c2, d2 := b0 / 4, b0 % 4, b1 / 16, b1 % 16, b2 / 64, b2 % 64;
    assert q1 == h1 * 16 + l1 && q2 == h2 * 4 + l2;
    assert b0 == c0 * 4 + d0 && b1 == c1 * 16 + d1 && b2 == c2 * 64 + d2;
    SameDigits(4, q0, h1, c0, d0);
    SameDigits(16, l1, h2, c1, d1);
    SameDigits(64, l2, q3, c2, d2);
    SameDigits(16, h1, l1, d0, c1);
    SameDigits(4, h2, l2, d1, c2);
  }

  lemma OneByteGroup(q: seq<sextet>, b0: byte)
    requires |q| == 2
    ensures Byte0(q) == b0 <==> SameUpToPad(q, [b0 / 4, b0 % 4 * 16])
  {
    var r := [b0 / 4, b0 % 4 * 16];
    assert q[..1] == [q[0]] && r[..1] == [r[0]];
  }

  lemma LastOfThree(q: seq<sextet>, r0: sextet, r1: sextet, r2: sextet)
    requires |q| == 3
    ensures SameUpToPad(q, [r0, r1, r2]) <==> q[0] == r0 && q[1] == r1 && q[2] / 4 == r2 / 4
  {
    var r := [r0, r1, r2];
    assert q[..2] == [q[0], q[1]] && r[..2] == [r0, r1];
  }

  lemma TwoBytesIff(q0: sextet, q1: sextet, q2: sextet, b0: byte, b1: byte)
    ensures q0 * 4 + q1 / 16 == b0 && q1 % 16 * 16 + q2 / 4 == b1
      <==> q0 == b0 / 4 && q1 == b0 % 4 * 16 + b1 / 16 && q2 / 4 == (b1 % 16 * 4) / 4
  {
    var h1, l1 := q1 / 16, q1 % 16;
    var c0, d0, c1, d1 := b0 / 4, b0 % 4, b1 / 16, b1 % 16;
    assert q1 == h1 * 16 + l1 && b0 == c0 * 4 + d0 && b1 == c1 * 16 + d1 && (d1 * 4) / 4 == d1;
    SameDigits(4, q0, h1, c0, d0);
    SameDigits(16, l1, q2 / 4, c1, d1);
    SameDigits(16, h1, l1, d0, c1);
  }

  lemma TwoByteGroup(q: seq<sextet>, b0: byte, b1: byte)
    requires |q| == 3
    ensures Byte0(q) == b0 && Byte1(q) == b1
      <==> SameUpToPad(q, [b0 / 4, b0 % 4 * 16 + b1 / 16, b1 % 16 * 4])
  {
    TwoBytesIff(q[0], q[1], q[2], b0, b1);
    hide Byte0, Byte1;
    LastOfThree(q, b0 / 4, b0 % 4 * 16 + b1 / 16, b1 % 16 * 4);
    hide SameUpToPad;
  }

  lemma DecodesGroup(q: seq<sextet>, b: seq<byte>)
    requires |q| >= 4 && |b| >= 3
    ensures FromSextets(q) == Some(b) <==>
      Byte0(q) == b[0] && Byte1(q) == b[1] && Byte2(q) == b[2] &&
      FromSextets(q[4..]) == Some(b[3..])
  {
    hide Byte0, Byte1, Byte2;
    assert b == [b[0], b[1], b[2]] + b[3..];
  }

  lemma GroupStep(q: seq<sextet>, b: seq<byte>)
    requires |q| >= 4 && |b| >= 3
    ensures FromSextets(q) == Some(b) <==> q[..4] == ToSextets(b)[..4] && FromSextets(q[4..]) == Some(b[3..])
    ensures ToSextets(b)[4..] == ToSextets(b[3..])
  {
    DecodesGroup(q, b);
    GroupIff(q[0], q[1], q[2], q[3], b[0], b[1], b[2]);
    hide FromSextets, Byte0, Byte1, Byte2;
    assert q[..4] == [q[0], q[1], q[2], q[3]];
  }

  lemma DecodedSize(q: seq<sextet>)
    ensures FromSextets(q).Some? ==>
      (|q| >= 4 ==> |FromSextets(q).value| >= 3) && (2 <= |q| < 4 ==> |FromSextets(q).value| == |q| - 1) &&
      (q == [] ==> FromSextets(q).value == []) && |q| != 1
  {
    hide Byte0, Byte1, Byte2;
  }

  lemma DifferentSize(q: seq<sextet>, r: seq<sextet>)
    ensures |q| != |r| ==> !SameUpToPad(q, r)
    ensures q == r == [] ==> SameUpToPad(q, r)
  {
  }

  lemma OneByte(q: seq<sextet>, b: seq<byte>)
    requires |q| == 2 && |b| == 1
    ensures FromSextets(q) == Some(b) <==> SameUpToPad(q, ToSextets(b))
  {
    hide SameUpToPad, Byte0;
    OneByteGroup(q, b[0]);
    assert b == [b[0]];
  }

  lemma EncodesTwo(b0: byte, b1: byte)
    ensures ToSextets([b0, b1]) == [b0 / 4, b0 % 4 * 16 + b1 / 16, b1 % 16 * 4]
  {
  }

  lemma TwoBytes(q: seq<sextet>, b: seq<byte>)
    requires |q| == 3 && |b| == 2
    ensures FromSextets(q) == Some(b) <==> SameUpToPad(q, ToSextets(b))
  {
    hide SameUpToPad, Byte0, Byte1;
    assert FromSextets(q) == Some([Byte0(q), Byte1(q)]);
    hide FromSextets;
    assert b == [b[0], b[1]];
    EncodesTwo(b[0], b[1]);
    hide ToSextets;
    TwoByteGroup(q, b[0], b[1]);
  }

  lemma SmallGroup(q: seq<sextet>, b: seq<byte>)
    requires |q| < 4 || |b| < 3
    ensures FromSextets(q) == Some(b) <==> SameUpToPad(q, ToSextets(b))
  {
    hide SameUpToPad, Byte0, Byte1, Byte2;
    if q == [] && b == [] { assert FromSextets(q) == Some(b) && ToSextets(b) == []; }
    hide FromSextets, ToSextets;
    SextetCount(b);
    DecodedSize(q);
    DifferentSize(q, ToSextets(b));
    if |q| == 2 && |b| == 1 { OneByte(q, b); }
    if |q| == 3 && |b| == 2 { TwoBytes(q, b); }
  }

  /** Exactly which sextet sequences decode to `b`: its encoding, up to the ignored pad bits. */
  lemma {:induction false} FromSextetsIff(q: seq<sextet>, b: seq<byte>)
    ensures FromSextets(q) == Some(b) <==> SameUpToPad(q, ToSextets(b))
  {
    hide FromSextets, ToSextets, SameUpToPad;
    if |q| >= 4 && |b| >= 3 {
      GroupStep(q, b);
      SextetCount(b);
      FromSextetsIff(q[4..], b[3..]);
      if |q| == |ToSextets(b)| { SameUpToPadTail(q, ToSextets(b)); } else { DifferentLength(q, ToSextets(b)); }
    } else {
      SmallGroup(q, b);
    }
  }

  lemma DifferentLength(q: seq<sextet>, r: seq<sextet>)
    requires |q| >= 4 && |r| >= 4 && |q| != |r|
    ensures !SameUpToPad(q, r) && !SameUpToPad(q[4..], r[4..])
  {
  }

  // ---- the four library decoders ------------------------------------------------------

  /** Unpadded decoding; `=` belongs to no alphabet. */
  function RawDecode(a: Alphabet, s: string): Option<seq<byte>> {
    match Sextets(a, s)
    case Some(q) => FromSextets(q)
    case None => None
  }

  function DropPadding(s: string): string {
    if |s| >= 2 && s[|s| - 2..] == "==" then s[..|s| - 2]
    else if |s| >= 1 && s[|s| - 1] == '=' then s[..|s| - 1]
    else s
  }

  function PaddedDecode(a: Alphabet, s: string): Option<seq<byte>> {
    if |s| % 4 != 0 then None else RawDecode(a, DropPadding(s))
  }

  function StripNewlines(s: string): string {
    if s == [] then []
    else (if s[0] == '\r' || s[0] == '\n' then [] else [s[0]]) + StripNewlines(s[1..])
  }

  predicate NewlineFree(s: string) { '\r' !in s && '\n' !in s }

  lemma {:induction false} StripIsIdentity(s: string)
    requires NewlineFree(s)
    ensures StripNewlines(s) == s
  {
    if s != [] { StripIsIdentity(s[1..]); }
  }

  datatype Decoder = Padded(alphabet: Alphabet) | Raw(alphabet: Alphabet)

  const DECODERS := [Padded(Std), Raw(Std), Padded(Url), Raw(Url)]

  function Decode(d: Decoder, s: string): Option<seq<byte>> {
    if d.Padded? then PaddedDecode(d.alphabet, s) else RawDecode(d.alphabet, s)
  }

  /** The first decoder that accepts decides. */
  function FirstAccepted(decoders: seq<Decoder>, s: string): Option<seq<byte>> {
    if decoders == [] then None
    else if Decode(decoders[0], s).Some? then Decode(decoders[0], s)
    else FirstAccepted(decoders[1..], s)
  }

  function DecodeStripped(s: string): Option<seq<byte>> { FirstAccepted(DECODERS, s) }

  function DecodeBase64(s: string): Option<seq<byte>> { DecodeStripped(StripNewlines(s)) }

  function EncodePadded(a: Alphabet, b: seq<byte>): string {
    Chars(a, ToSextets(b)) + (if |b| % 3 == 0 then "" else if |b| % 3 == 1 then "==" else "=")
  }

  function CanonicalKeyId(keyId: string): Option<string> {
    match DecodeBase64(keyId)
    case Some(raw) => if |raw| == SHA256_SIZE then Some(EncodePadded(Std, raw)) else None
    case None => None
  }

  // ---- the spellings of one hash ---------------------------------------------------------

  type Hash = b: seq<byte> | |b| == SHA256_SIZE witness seq(SHA256_SIZE, i => 0)

  /** The encoding of `raw` in one alphabet, with the two ignored bits set to `pad`, padded or not. */
  function Spelling(a: Alphabet, raw: Hash, pad: int, eq: bool): string
    requires 0 <= pad < 4
  {
    SextetCount(raw);
    var q := ToSextets(raw);
    Chars(a, q[..42]) + [CharOf(a, q[42] - q[42] % 4 + pad)] + (if eq then "=" else "")
  }

  ghost predicate IsSpelling(raw: Hash, s: string) {
    exists a, pad, eq :: 0 <= pad < 4 && s == Spelling(a, raw, pad, eq)
  }

  lemma CharsCons(a: Alphabet, n: sextet, q: seq<sextet>)
    ensures Chars(a, [n] + q) == [CharOf(a, n)] + Chars(a, q)
  {
    hide CharOf;
    assert ([n] + q)[1..] == q;
  }

  lemma JoinedThree(x: string, y: string, z: string)
    ensures x + (y + z) == x + y + z
  {
  }

  lemma {:induction false} CharsAppend(a: Alphabet, q: seq<sextet>, r: seq<sextet>)
    ensures Chars(a, q + r) == Chars(a, q) + Chars(a, r)
  {
    hide CharOf;
    if q == [] {
      assert q + r == r;
    } else {
      assert q + r == [q[0]] + (q[1..] + r) && q == [q[0]] + q[1..];
      CharsCons(a, q[0], q[1..]);
      CharsCons(a, q[0], q[1..] + r);
      CharsAppend(a, q[1..], r);
      hide Chars;
      JoinedThree([CharOf(a, q[0])], Chars(a, q[1..]), Chars(a, r));
    }
  }

  lemma RawSpellingDecodes(a: Alphabet, raw: Hash, pad: int)
    requires 0 <= pad < 4
    ensures RawDecode(a, Spelling(a, raw, pad, false)) == Some(raw)
  {
    SextetCount(raw);
    var r := ToSextets(raw);
    var last: sextet := r[42] - r[42] % 4 + pad;
    var q := r[..42] + [last];
    CharsAppend(a, r[..42], [last]);
    assert Chars(a, [last]) == [CharOf(a, last)];
    assert Spelling(a, raw, pad, false) == Chars(a, q);
    SextetsInvertChars(a, Chars(a, q), q);
    assert q[..42] == r[..42];
    FromSextetsIff(q, raw);
  }

  /** Sextets that decode to `raw` spell it, with the ignored bits they carry. */
  lemma SextetsSpell(a: Alphabet, raw: Hash, q: seq<sextet>)
    requires FromSextets(q) == Some(raw)
    ensures |q| == 43 && Chars(a, q) == Spelling(a, raw, q[42] % 4, false)
  {
    hide ToSextets, FromSextets, CharOf;
    SextetCount(raw);
    FromSextetsIff(q, raw);
    assert q == q[..42] + [q[42]];
    CharsAppend(a, q[..42], [q[42]]);
    assert Chars(a, [q[42]]) == [CharOf(a, q[42])];
  }

  /** `=` is outside both alphabets, so a raw decoder accepts no padded text. */
  lemma {:induction false} RawRefusesPadding(a: Alphabet, s: string)
    ensures Sextets(a, s + "=") == None
  {
    if s != [] {
      RawRefusesPadding(a, s[1..]);
      assert (s + "=")[1..] == s[1..] + "=";
    }
  }

  lemma RawDecodersAgree(s: string)
    requires RawDecode(Std, s).Some? && RawDecode(Url, s).Some?
    ensures RawDecode(Std, s) == RawDecode(Url, s)
  {
    SextetsAgree(Std, Url, s);
  }

  lemma RawLength(a: Alphabet, raw: Hash, s: string)
    requires RawDecode(a, s) == Some(raw)
    ensures |s| == 43
  {
    hide ToSextets, FromSextets, CharOf, Sextets;
    SextetCount(raw);
    var q := Sextets(a, s).value;
    SextetsInvertChars(a, s, q);
    FromSextetsIff(q, raw);
  }

  /** A padded decoder yields a hash exactly when one `=` follows a raw spelling of it. */
  lemma PaddedDecodeIff(a: Alphabet, raw: Hash, s: string)
    ensures PaddedDecode(a, s) == Some(raw)
      <==> |s| == 44 && s[43] == '=' && RawDecode(a, s[..43]) == Some(raw)
  {
    hide RawDecode;
    if PaddedDecode(a, s) == Some(raw) {
      RawLength(a, raw, DropPadding(s));
    }
    if |s| == 44 && s[43] == '=' && RawDecode(a, s[..43]) == Some(raw) {
      if s[42..] == "==" {
        assert s[..43] == s[..42] + "=";
        RawRefusesNone(a, s[..42]);
      }
    }
  }

  lemma RawRefusesNone(a: Alphabet, s: string)
    ensures RawDecode(a, s + "=") == None
  {
    RawRefusesPadding(a, s);
  }

  lemma RawRefusesTrailing(a: Alphabet, s: string)
    requires s != [] && s[|s| - 1] == '='
    ensures RawDecode(a, s) == None
  {
    assert s == s[..|s| - 1] + "=";
    RawRefusesNone(a, s[..|s| - 1]);
  }

  /** One of the two decoders of this alphabet turns `s` into `raw`. */
  predicate YieldsHash(a: Alphabet, raw: Hash, s: string) {
    RawDecode(a, s) == Some(raw) || (|s| == 44 && s[43] == '=' && RawDecode(a, s[..43]) == Some(raw))
  }

  lemma TriesNext(d: Decoder, rest: seq<Decoder>, s: string)
    ensures FirstAccepted([d] + rest, s) == if Decode(d, s).Some? then Decode(d, s) else FirstAccepted(rest, s)
  {
    hide Decode;
    assert ([d] + rest)[1..] == rest;
  }

  lemma FourDecoders(s: string)
    ensures DecodeStripped(s) ==
      if PaddedDecode(Std, s).Some? then PaddedDecode(Std, s)
      else if RawDecode(Std, s).Some? then RawDecode(Std, s)
      else if PaddedDecode(Url, s).Some? then PaddedDecode(Url, s)
      else RawDecode(Url, s)
  {
    hide PaddedDecode, RawDecode;
    var last: seq<Decoder> := [Raw(Url)];
    var three, two := [Raw(Std)] + ([Padded(Url)] + last), [Padded(Url)] + last;
    assert DECODERS == [Padded(Std)] + three && last == [Raw(Url)] + [];
    TriesNext(Padded(Std), three, s);
    TriesNext(Raw(Std), two, s);
    TriesNext(Padded(Url), last, s);
    TriesNext(Raw(Url), [], s);
  }

  /** Of four decoders tried in turn, the result is the hash iff one of them yields it. */
  lemma DecodeStrippedIff(raw: Hash, s: string)
    ensures DecodeStripped(s) == Some(raw)
      <==> YieldsHash(Std, raw, s) || YieldsHash(Url, raw, s)
  {
    hide RawDecode, PaddedDecode, DecodeStripped;
    FourDecoders(s);
    DecoderFacts(Std, raw, s);
    DecoderFacts(Url, raw, s);
    if RawDecode(Std, s).Some? && RawDecode(Url, s).Some? { RawDecodersAgree(s); }
    if PaddedDecode(Std, s).Some? && PaddedDecode(Url, s).Some? { PaddedDecodersAgree(s); }
  }

  /** Where each decoder of one alphabet can yield a hash at all. */
  lemma DecoderFacts(a: Alphabet, raw: Hash, s: string)
    ensures RawDecode(a, s) == Some(raw) ==> |s| == 43
    ensures PaddedDecode(a, s) == Some(raw) <==> |s| == 44 && s[43] == '=' && RawDecode(a, s[..43]) == Some(raw)
    ensures |s| == 43 ==> PaddedDecode(a, s) == None
    ensures |s| == 44 && s[43] == '=' ==> RawDecode(a, s) == None
  {
    hide RawDecode, PaddedDecode;
    PaddedDecodeIff(a, raw, s);
    if RawDecode(a, s) == Some(raw) { RawLength(a, raw, s); }
    if |s| == 44 && s[43] == '=' { RawRefusesTrailing(a, s); }
    if |s| == 43 { PaddedRefusesOddLength(a, s); }
  }

  lemma PaddedRefusesOddLength(a: Alphabet, s: string)
    requires |s| == 43
    ensures PaddedDecode(a, s) == None
  {}

  lemma PaddedDecodersAgree(s: string)
    requires PaddedDecode(Std, s).Some? && PaddedDecode(Url, s).Some?
    ensures PaddedDecode(Std, s) == PaddedDecode(Url, s)
  {
    hide RawDecode, DropPadding;
    RawDecodersAgree(DropPadding(s));
  }

  /** Exactly the sixteen spellings decode to a hash. */
  lemma DecodesIffSpelling(raw: Hash, s: string)
    ensures DecodeStripped(s) == Some(raw) <==> IsSpelling(raw, s)
  {
    hide RawDecode, DecodeStripped, Spelling;
    DecodeStrippedIff(raw, s);
    if DecodeStripped(s) == Some(raw) {
      var a := if YieldsHash(Std, raw, s) then Std else Url;
      if RawDecode(a, s) == Some(raw) {
        RawIsSpelling(a, raw, s, false);
      } else {
        assert s == s[..43] + "=";
        RawIsSpelling(a, raw, s[..43], true);
      }
    }
    if IsSpelling(raw, s) {
      var a, pad, eq :| 0 <= pad < 4 && s == Spelling(a, raw, pad, eq);
      RawSpellingDecodes(a, raw, pad);
      SpellingPads(a, raw, pad);
      if eq { assert s[..43] == Spelling(a, raw, pad, false); }
      assert YieldsHash(a, raw, s);
      assert a.Std? || a.Url?;
    }
  }

  lemma RawIsSpelling(a: Alphabet, raw: Hash, s: string, eq: bool)
    requires RawDecode(a, s) == Some(raw)
    ensures IsSpelling(raw, if eq then s + "=" else s)
  {
    hide Sextets, FromSextets, Spelling;
    var q := Sextets(a, s).value;
    SextetsInvertChars(a, s, q);
    SextetsSpell(a, raw, q);
    SpellingPads(a, raw, q[42] % 4);
    assert (if eq then s + "=" else s) == Spelling(a, raw, q[42] % 4, eq);
  }

  lemma SpellingPads(a: Alphabet, raw: Hash, pad: int)
    requires 0 <= pad < 4
    ensures |Spelling(a, raw, pad, false)| == 43
    ensures Spelling(a, raw, pad, true) == Spelling(a, raw, pad, false) + "="
  {
    hide CharOf;
    SextetCount(raw);
  }

  lemma {:induction false} LastSextetIsPadded(b: seq<byte>)
    requires |b| % 3 == 2
    ensures ToSextets(b) != [] && ToSextets(b)[|ToSextets(b)| - 1] % 4 == 0
  {
    if |b| > 2 { LastSextetIsPadded(b[3..]); }
  }

  /** The library encoder produces the padded spelling with zero pad bits. */
  lemma EncodePaddedIsSpelling(a: Alphabet, raw: Hash)
    ensures EncodePadded(a, raw) == Spelling(a, raw, 0, true)
  {
    SextetCount(raw);
    LastSextetIsPadded(raw);
    hide ToSextets, CharOf;
    var q := ToSextets(raw);
    assert q == q[..42] + [q[42]];
    CharsAppend(a, q[..42], [q[42]]);
    assert Chars(a, [q[42]]) == [CharOf(a, q[42])];
  }

  // ---- identities ---------------------------------------------------------------------

  /** A canonical identity names its hash, and is itself one of the accepted spellings. */
  lemma CanonicalIff(keyId: string, raw: Hash)
    ensures CanonicalKeyId(keyId) == Some(EncodePadded(Std, raw)) <==> DecodeBase64(keyId) == Some(raw)
    ensures CanonicalKeyId(EncodePadded(Std, raw)) == Some(EncodePadded(Std, raw))
  {
    hide DecodeStripped, Spelling, EncodePadded, StripNewlines;
    EncodingIsInjective(raw);
    if DecodeBase64(keyId).Some? && |DecodeBase64(keyId).value| == SHA256_SIZE {
      EncodingIsInjective(DecodeBase64(keyId).value);
    }
  }

  lemma EncodingIsInjective(raw: Hash)
    ensures DecodeBase64(EncodePadded(Std, raw)) == Some(raw)
  {
    hide DecodeStripped, Spelling, EncodePadded;
    EncodePaddedIsSpelling(Std, raw);
    DecodesIffSpelling(raw, EncodePadded(Std, raw));
    SpellingIsNewlineFree(Std, raw, 0, true);
    StripIsIdentity(EncodePadded(Std, raw));
  }

  lemma {:induction false} CharsNewlineFree(a: Alphabet, q: seq<sextet>)
    ensures NewlineFree(Chars(a, q))
  {
    if q != [] {
      CharsNewlineFree(a, q[1..]);
      assert CharOf(a, q[0]) != '\r' && CharOf(a, q[0]) != '\n';
    }
  }

  lemma SpellingIsNewlineFree(a: Alphabet, raw: Hash, pad: int, eq: bool)
    requires 0 <= pad < 4
    ensures NewlineFree(Spelling(a, raw, pad, eq))
  {
    SextetCount(raw);
    hide ToSextets;
    var q := ToSextets(raw);
    CharsNewlineFree(a, q[..42]);
    assert CharOf(a, q[42] - q[42] % 4 + pad) !in "\r\n";
  }

  /** The header-safe strings with the identity of `raw` are exactly its spellings. */
  lemma SameIdentityIffSpelling(raw: Hash, s: string)
    ensures CanonicalKeyId(s) == Some(EncodePadded(Std, raw)) <==> DecodeBase64(s) == Some(raw)
    ensures NewlineFree(s) && DecodeBase64(s) == Some(raw) <==> IsSpelling(raw, s)
  {
    hide DecodeStripped, Spelling, EncodePadded, StripNewlines;
    CanonicalIff(s, raw);
    if NewlineFree(s) {
      StripIsIdentity(s);
      DecodesIffSpelling(raw, s);
    }
    if IsSpelling(raw, s) {
      var a, pad, eq :| 0 <= pad < 4 && s == Spelling(a, raw, pad, eq);
      SpellingIsNewlineFree(a, raw, pad, eq);
    }
  }

  // ---- the enumerator ------------------------------------------------------------------

  /** The k-th spelling in the order the loops produce them. */
  function SpellingNo(raw: Hash, k: int): string
    requires 0 <= k < 16
  {
    Spelling(if k < 8 then Std else Url, raw, k % 8 / 2, k % 2 == 0)
  }

  function SpellingsUpTo(raw: Hash, n: int): set<string>
    requires 0 <= n <= 16
  {
    set k | 0 <= k < n :: SpellingNo(raw, k)
  }

  lemma AllSpellings(raw: Hash, s: string)
    ensures s in SpellingsUpTo(raw, 16) <==> IsSpelling(raw, s)
  {
    hide Spelling;
    if IsSpelling(raw, s) {
      var a, pad, eq :| 0 <= pad < 4 && s == Spelling(a, raw, pad, eq);
      var k := (if a == Std then 0 else 8) + pad * 2 + (if eq then 0 else 1);
      assert s == SpellingNo(raw, k);
    }
  }

  lemma EncodedParts(a: Alphabet, raw: Hash)
    ensures var encoded := EncodePadded(a, raw);
      |encoded| == 44 && IndexOf(a, encoded[42]).Some? && IndexOf(a, encoded[42]).value % 4 == 0 &&
      forall pad, eq :: 0 <= pad < 4 ==>
        Spelling(a, raw, pad, eq) ==
          encoded[..42] + [CharOf(a, IndexOf(a, encoded[42]).value + pad)] + (if eq then "=" else "")
  {
    hide ToSextets, IndexOf, CharOf;
    EncodePaddedIsSpelling(a, raw);
    SextetCount(raw);
    LastSextetIsPadded(raw);
    var q := ToSextets(raw);
    IndexInvertsChar(a, q[42], 'A');
    assert EncodePadded(a, raw)[..42] == Chars(a, q[..42]);
  }

  lemma StdDecodesCanonical(raw: Hash)
    ensures PaddedDecode(Std, StripNewlines(EncodePadded(Std, raw))) == Some(raw)
  {
    hide Spelling, EncodePadded, RawDecode;
    EncodePaddedIsSpelling(Std, raw);
    SpellingIsNewlineFree(Std, raw, 0, true);
    StripIsIdentity(EncodePadded(Std, raw));
    SpellingPads(Std, raw, 0);
    RawSpellingDecodes(Std, raw, 0);
    PaddedDecodeIff(Std, raw, EncodePadded(Std, raw));
    assert EncodePadded(Std, raw)[..43] == Spelling(Std, raw, 0, false);
  }

  /**
   The enumeration is exact: without repetition, the header-safe strings that share the identity
   of `keyId`. It fails exactly when `keyId` has no identity.
   */
  method KeyIdAliases(keyId: string) returns (r: Option<seq<string>>)
    ensures r == None <==> CanonicalKeyId(keyId) == None
    ensures r.Some? ==> Distinct(r.value)
    ensures r.Some? ==> forall s :: s in r.value <==> NewlineFree(s) && CanonicalKeyId(s) == CanonicalKeyId(keyId)
  {
    hide Spelling, EncodePadded, PaddedDecode, DecodeStripped, StripNewlines, Distinct;
    hide IndexOf, CharOf, SpellingsUpTo, SpellingNo, NewlineFree;
    var canonical := CanonicalKeyId(keyId);
    if canonical == None { return None; }
    ghost var hash: Hash := DecodeBase64(keyId).value;
    StdDecodesCanonical(hash);
    var raw := PaddedDecode(Std, StripNewlines(canonical.value)).value;
    var seen: set<string>, aliases: seq<string> := {}, [];
    NoneYet();
    for e := 0 to 2
      invariant seen == Elements(aliases) == SpellingsUpTo(hash, e * 8) && Distinct(aliases)
    {
      seen, aliases := EncodingAliases(raw, e, seen, aliases);
    }
    AliasesAreExact(hash, keyId, aliases);
    return Some(aliases);
  }

  /** The spellings of one encoding. */
  method EncodingAliases(raw: Hash, e: int, seen0: set<string>, aliases0: seq<string>)
    returns (seen: set<string>, aliases: seq<string>)
    requires 0 <= e < 2 && seen0 == Elements(aliases0) == SpellingsUpTo(raw, e * 8) && Distinct(aliases0)
    ensures seen == Elements(aliases) == SpellingsUpTo(raw, e * 8 + 8) && Distinct(aliases)
  {
    hide Spelling, EncodePadded, Distinct, IndexOf, CharOf, SpellingsUpTo, SpellingNo;
    var a := if e == 0 then Std else Url;
    var encoded := EncodePadded(a, raw);
    EncodedParts(a, raw);
    var index := IndexOf(a, encoded[42]).value;
    seen, aliases := seen0, aliases0;
    for pad := 0 to 4
      invariant seen == Elements(aliases) == SpellingsUpTo(raw, e * 8 + pad * 2) && Distinct(aliases)
    {
      var spelling := encoded[..42] + [CharOf(a, index - index % 4 + pad)];
      NextPair(raw, e, pad);
      assert spelling + "=" == Spelling(a, raw, pad, true) && spelling == Spelling(a, raw, pad, false);
      for j := 0 to 2
        invariant seen == Elements(aliases) && Distinct(aliases)
        invariant Elements(aliases) == SpellingsUpTo(raw, e * 8 + pad * 2) +
          (if j >= 1 then {spelling + "="} else {}) + (if j == 2 then {spelling} else {})
      {
        seen, aliases := AddAlias(seen, aliases, if j == 0 then spelling + "=" else spelling);
      }
    }
  }

  lemma NextPair(raw: Hash, e: int, pad: int)
    requires 0 <= e < 2 && 0 <= pad < 4
    ensures var (a, n) := (if e == 0 then Std else Url, e * 8 + pad * 2);
      SpellingsUpTo(raw, n + 2) ==
        SpellingsUpTo(raw, n) + {Spelling(a, raw, pad, true)} + {Spelling(a, raw, pad, false)}
  {
    hide Spelling, SpellingsUpTo;
    var n := e * 8 + pad * 2;
    NextSpelling(raw, n);
    NextSpelling(raw, n + 1);
  }

  lemma AliasesAreExact(raw: Hash, keyId: string, aliases: seq<string>)
    requires Elements(aliases) == SpellingsUpTo(raw, 16) && DecodeBase64(keyId) == Some(raw)
    ensures forall s :: s in aliases <==> NewlineFree(s) && CanonicalKeyId(s) == CanonicalKeyId(keyId)
  {
    hide Spelling, SpellingsUpTo, DecodeBase64, EncodePadded;
    forall s ensures s in aliases <==> NewlineFree(s) && CanonicalKeyId(s) == CanonicalKeyId(keyId) {
      AllSpellings(raw, s);
      SameIdentityIffSpelling(raw, s);
      assert s in aliases <==> s in Elements(aliases);
    }
  }

  lemma NoneYet()
    ensures Elements<string>([]) == {} && Distinct<string>([])
    ensures forall raw: Hash :: SpellingsUpTo(raw, 0) == {}
  {}

  lemma NextSpelling(raw: Hash, n: int)
    requires 0 <= n < 16
    ensures SpellingsUpTo(raw, n + 1) == SpellingsUpTo(raw, n) + {SpellingNo(raw, n)}
  {
    hide SpellingNo;
  }

  method AddAlias(seen: set<string>, aliases: seq<string>, s: string)
    returns (seen': set<string>, aliases': seq<string>)
    requires seen == Elements(aliases) && Distinct(aliases)
    ensures seen' == Elements(aliases') == Elements(aliases) + {s} && Distinct(aliases')
  {
    hide Distinct;
    seen', aliases' := seen, aliases;
    if s !in seen {
      assert forall x :: x in Elements(aliases) <==> x in aliases;
      DistinctAppend(aliases, s);
      seen', aliases' := seen + {s}, aliases + [s];
      assert Elements(aliases') == Elements(aliases) + {s};
    }
  }
}
