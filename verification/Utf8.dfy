/**
 UTF-8 (section 3 of RFC 3629) as the gateway uses it: `String::from_utf8_lossy`, which replaces
 every maximal ill-formed subpart by U+FFFD, and `str::from_utf8`, which accepts or refuses.
 */
module Utf8 {
  import opened Prelude

  const REPLACEMENT: char := '\U{FFFD}'

  predicate IsContinuation(b: byte) {
    0x80 <= b < 0xC0
  }

  /** Length announced by a lead byte; 0 when the byte cannot start a sequence. */
  function Width(lead: byte): nat {
    if lead < 0x80 then 1
    else if 0xC2 <= lead <= 0xDF then 2
    else if 0xE0 <= lead <= 0xEF then 3
    else if 0xF0 <= lead <= 0xF4 then 4
    else 0
  }

  /** Second-byte ranges: overlong forms, surrogates and values above U+10FFFF are excluded here. */
  predicate SecondOk(lead: byte, b: byte) {
    if lead == 0xE0 then 0xA0 <= b <= 0xBF
    else if lead == 0xED then 0x80 <= b <= 0x9F
    else if lead == 0xF0 then 0x90 <= b <= 0xBF
    else if lead == 0xF4 then 0x80 <= b <= 0x8F
    else IsContinuation(b)
  }

  /** One decoding step: how many bytes it takes and the character they stand for, if any. */
  datatype Unit = Unit(len: nat, decoded: Option<char>)

  function Scan(s: seq<byte>): (u: Unit)
    requires s != []
    ensures 1 <= u.len <= |s|
  {
    var w := Width(s[0]);
    if w == 1 then Unit(1, Some(s[0] as char))
    else if w == 0 || |s| < 2 || !SecondOk(s[0], s[1]) then Unit(1, None)
    else if w == 2 then Unit(2, Some(Pair(s[0], s[1])))
    else if |s| < 3 || !IsContinuation(s[2]) then Unit(2, None)
    else if w == 3 then Unit(3, Some(Triple(s[0], s[1], s[2])))
    else if |s| < 4 || !IsContinuation(s[3]) then Unit(3, None)
    else Unit(4, Some(Quad(s[0], s[1], s[2], s[3])))
  }

  function Pair(a: byte, b: byte): char
    requires Width(a) == 2 && SecondOk(a, b)
  {
    ((a - 0xC0) * 64 + (b - 0x80)) as char
  }

  function Triple(a: byte, b: byte, c: byte): char
    requires Width(a) == 3 && SecondOk(a, b) && IsContinuation(c)
  {
    ((a - 0xE0) * 4096 + (b - 0x80) * 64 + (c - 0x80)) as char
  }

  function Quad(a: byte, b: byte, c: byte, d: byte): char
    requires Width(a) == 4 && SecondOk(a, b) && IsContinuation(c) && IsContinuation(d)
  {
    ((a - 0xF0) * 262144 + (b - 0x80) * 4096 + (c - 0x80) * 64 + (d - 0x80)) as char
  }

  /** `String::from_utf8_lossy`. */
  function DecodeLossy(s: seq<byte>): string {
    if s == [] then ""
    else
      var u := Scan(s);
      [if u.decoded.Some? then u.decoded.value else REPLACEMENT] + DecodeLossy(s[u.len..])
  }

  /** `str::from_utf8`: the text, or nothing when any step is ill-formed. */
  function DecodeStrict(s: seq<byte>): Option<string> {
    if s == [] then Some("")
    else
      var u := Scan(s);
      if u.decoded.None? then None
      else
        var rest := DecodeStrict(s[u.len..]);
        if rest.None? then None else Some([u.decoded.value] + rest.value)
  }

  function Encode(ch: char): (s: seq<byte>)
    ensures 1 <= |s| <= 4 && !IsContinuation(s[0])
  {
    var c := ch as int;
    if c < 0x80 then [c]
    else if c < 0x800 then [0xC0 + c / 64, 0x80 + c % 64]
    else if c < 0x10000 then [0xE0 + c / 4096, 0x80 + c / 64 % 64, 0x80 + c % 64]
    else [0xF0 + c / 262144, 0x80 + c / 4096 % 64, 0x80 + c / 64 % 64, 0x80 + c % 64]
  }

  function EncodeAll(t: string): seq<byte> {
    if t == "" then [] else Encode(t[0]) + EncodeAll(t[1..])
  }

  // ---------------------------------------------------------------------------------------------
  // Cutting a byte stream

  /** Where a stream may be cut without changing what either side decodes to. */
  predicate Seam(a: seq<byte>, b: seq<byte>) {
    a == [] || b == [] || a[|a| - 1] < 0x80 || !IsContinuation(b[0])
  }

  lemma ScanAcrossSeam(a: seq<byte>, b: seq<byte>)
    requires a != [] && Seam(a, b)
    ensures Scan(a + b) == Scan(a)
  {
    var s := a + b;
    assert forall i | 0 <= i < |a| :: s[i] == a[i];
    assert b != [] ==> s[|a|] == b[0];
    if b == [] { assert s == a; }
  }

  /** Decoding is a homomorphism at every seam: after an ASCII byte, or before a non-continuation. */
  lemma {:induction false} DecodeAtSeam(a: seq<byte>, b: seq<byte>)
    requires Seam(a, b)
    ensures DecodeLossy(a + b) == DecodeLossy(a) + DecodeLossy(b)
    decreases |a|
  {
    if a == [] {
      assert a + b == b;
    } else {
      ScanAcrossSeam(a, b);
      var n := Scan(a).len;
      assert (a + b)[n..] == a[n..] + b;
      DecodeAtSeam(a[n..], b);
    }
  }

  // ---------------------------------------------------------------------------------------------
  // The strict decoder, the lossy decoder and the encoder agree

  lemma {:induction false} StrictIsLossy(s: seq<byte>)
    requires DecodeStrict(s).Some?
    ensures DecodeStrict(s).value == DecodeLossy(s)
    decreases |s|
  {
    if s != [] {
      StrictIsLossy(s[Scan(s).len..]);
    }
  }

  /** The base-64 digits of a code point, as the three multi-byte forms spread them. */
  lemma Digits(c: nat)
    requires c < 0x110000
    ensures c == c / 64 * 64 + c % 64
    ensures c == c / 4096 * 4096 + c / 64 % 64 * 64 + c % 64
    ensures c == c / 262144 * 262144 + c / 4096 % 64 * 4096 + c / 64 % 64 * 64 + c % 64
  {
    assert c / 4096 == c / 64 / 64;
    assert c / 262144 == c / 4096 / 64;
  }

  lemma ScanPair(a: byte, b: byte, rest: seq<byte>)
    requires Width(a) == 2 && SecondOk(a, b)
    ensures Scan([a, b] + rest) == Unit(2, Some(Pair(a, b)))
  {
  }

  lemma ScanTriple(a: byte, b: byte, c: byte, rest: seq<byte>)
    requires Width(a) == 3 && SecondOk(a, b) && IsContinuation(c)
    ensures Scan([a, b, c] + rest) == Unit(3, Some(Triple(a, b, c)))
  {
  }

  lemma ScanQuad(a: byte, b: byte, c: byte, d: byte, rest: seq<byte>)
    requires Width(a) == 4 && SecondOk(a, b) && IsContinuation(c) && IsContinuation(d)
    ensures Scan([a, b, c, d] + rest) == Unit(4, Some(Quad(a, b, c, d)))
  {
  }

  lemma ScanEncoded(ch: char, rest: seq<byte>)
    ensures Encode(ch) + rest != []
    ensures Scan(Encode(ch) + rest) == Unit(|Encode(ch)|, Some(ch))
  {
    var c := ch as int;
    Digits(c);
    assert c as char == ch;
    if c < 0x80 {
    } else if c < 0x800 {
      ScanPair(0xC0 + c / 64, 0x80 + c % 64, rest);
    } else if c < 0x10000 {
      ScanTriple(0xE0 + c / 4096, 0x80 + c / 64 % 64, 0x80 + c % 64, rest);
    } else {
      ScanQuad(0xF0 + c / 262144, 0x80 + c / 4096 % 64, 0x80 + c / 64 % 64, 0x80 + c % 64, rest);
    }
  }

  lemma {:induction false} DecodeEncoded(t: string)
    ensures DecodeStrict(EncodeAll(t)) == Some(t)
    decreases |t|
  {
    if t != "" {
      var s := EncodeAll(t);
      ScanEncoded(t[0], EncodeAll(t[1..]));
      assert s[|Encode(t[0])|..] == EncodeAll(t[1..]);
      DecodeEncoded(t[1..]);
      assert t == [t[0]] + t[1..];
    }
  }

  lemma PairIsEncoded(a: byte, b: byte)
    requires Width(a) == 2 && SecondOk(a, b)
    ensures Encode(Pair(a, b)) == [a, b]
  {
    var x, y := a - 0xC0, b - 0x80;
    var c := x * 64 + y;
    assert c / 64 == x && c % 64 == y;
    assert 0x80 <= c < 0x800 && c as char as int == c;
  }

  lemma TripleIsEncoded(a: byte, b: byte, c: byte)
    requires Width(a) == 3 && SecondOk(a, b) && IsContinuation(c)
    ensures Encode(Triple(a, b, c)) == [a, b, c]
  {
    var x, y, z := a - 0xE0, b - 0x80, c - 0x80;
    var v := x * 4096 + y * 64 + z;
    assert v / 64 == x * 64 + y && v % 64 == z;
    assert v / 4096 == x && v / 64 % 64 == y;
    assert 0x800 <= v < 0x10000 && v as char as int == v;
  }

  lemma QuadIsEncoded(a: byte, b: byte, c: byte, d: byte)
    requires Width(a) == 4 && SecondOk(a, b) && IsContinuation(c) && IsContinuation(d)
    ensures Encode(Quad(a, b, c, d)) == [a, b, c, d]
  {
    var x, y, z, w := a - 0xF0, b - 0x80, c - 0x80, d - 0x80;
    var v := x * 262144 + y * 4096 + z * 64 + w;
    assert v / 64 == x * 4096 + y * 64 + z && v % 64 == w;
    assert v / 4096 == x * 64 + y && v / 64 % 64 == z;
    assert v / 262144 == x && v / 4096 % 64 == y;
    assert 0x10000 <= v < 0x110000 && v as char as int == v;
  }

  lemma ScannedIsEncoded(s: seq<byte>)
    requires s != [] && Scan(s).decoded.Some?
    ensures s[..Scan(s).len] == Encode(Scan(s).decoded.value)
  {
    var n := Scan(s).len;
    if n == 1 {
      assert (s[0] as char) as int == s[0];
    } else if n == 2 {
      PairIsEncoded(s[0], s[1]);
    } else if n == 3 {
      TripleIsEncoded(s[0], s[1], s[2]);
    } else {
      QuadIsEncoded(s[0], s[1], s[2], s[3]);
    }
  }

  lemma StrictStep(s: seq<byte>)
    requires s != [] && DecodeStrict(s).Some?
    ensures Scan(s).decoded.Some? && DecodeStrict(s[Scan(s).len..]).Some?
    ensures DecodeStrict(s).value == [Scan(s).decoded.value] + DecodeStrict(s[Scan(s).len..]).value
  {
  }

  lemma EncodeCons(c: char, t: string)
    ensures EncodeAll([c] + t) == Encode(c) + EncodeAll(t)
  {
    assert ([c] + t)[1..] == t;
  }

  lemma EncodeGlue(s: seq<byte>, n: nat, c: char, t: string)
    requires n <= |s| && s[..n] == Encode(c) && s[n..] == EncodeAll(t)
    ensures s == EncodeAll([c] + t)
  {
    EncodeCons(c, t);
    assert s == s[..n] + s[n..];
  }

  lemma {:induction false} EncodeDecoded(s: seq<byte>)
    requires DecodeStrict(s).Some?
    ensures s == EncodeAll(DecodeStrict(s).value)
    decreases |s|
  {
    if s != [] {
      StrictStep(s);
      ScannedIsEncoded(s);
      var u := Scan(s);
      EncodeDecoded(s[u.len..]);
      EncodeGlue(s, u.len, u.decoded.value, DecodeStrict(s[u.len..]).value);
    }
  }

  /** Valid UTF-8 is exactly the image of the encoder, and each text has one encoding. */
  lemma ValidIffEncoded(s: seq<byte>, t: string)
    ensures DecodeStrict(s) == Some(t) <==> s == EncodeAll(t)
  {
    DecodeEncoded(t);
    if DecodeStrict(s) == Some(t) {
      EncodeDecoded(s);
    }
  }

  // ---------------------------------------------------------------------------------------------
  // What is replaced

  /** The bytes start the encoding of some character. */
  ghost predicate StartsCharacter(p: seq<byte>) {
    exists ch :: p <= Encode(ch)
  }

  /** The bytes hold a whole character at the front. */
  ghost predicate HoldsCharacter(s: seq<byte>) {
    exists ch :: Encode(ch) <= s
  }

  /** The first `n` bytes are the longest start of a character, or a single byte if none is longer. */
  ghost predicate MaximalSubpart(s: seq<byte>, n: nat) {
    && 1 <= n <= |s| && (n == 1 || StartsCharacter(s[..n]))
    && forall m | n < m <= |s| :: !StartsCharacter(s[..m])
  }

  lemma EncodedShape(ch: char)
    ensures var t := Encode(ch);
            && Width(t[0]) == |t|
            && (|t| >= 2 ==> SecondOk(t[0], t[1]))
            && (|t| >= 3 ==> IsContinuation(t[2]))
            && (|t| >= 4 ==> IsContinuation(t[3]))
  {
    ScanEncoded(ch, []);
    assert Encode(ch) + [] == Encode(ch);
  }

  lemma ScanStopsWhereNoCharacterGoes(s: seq<byte>, m: nat, ch: char)
    requires s != [] && Scan(s).decoded.None? && Scan(s).len < m <= |s|
    ensures !(s[..m] <= Encode(ch))
  {
    EncodedShape(ch);
    assert forall k | 0 <= k < m :: s[..m][k] == s[k];
  }

  lemma ScanGoesAsFarAsACharacter(s: seq<byte>)
    requires s != [] && Scan(s).decoded.None? && Scan(s).len > 1
    ensures StartsCharacter(s[..Scan(s).len])
  {
    var n := Scan(s).len;
    if n == 2 {
      if Width(s[0]) == 3 {
        TripleIsEncoded(s[0], s[1], 0x80);
        assert s[..n] <= Encode(Triple(s[0], s[1], 0x80));
      } else {
        QuadIsEncoded(s[0], s[1], 0x80, 0x80);
        assert s[..n] <= Encode(Quad(s[0], s[1], 0x80, 0x80));
      }
    } else {
      QuadIsEncoded(s[0], s[1], s[2], 0x80);
      assert s[..n] <= Encode(Quad(s[0], s[1], s[2], 0x80));
    }
  }

  lemma NoneMeansNoCharacter(s: seq<byte>, ch: char)
    requires s != [] && Scan(s).decoded.None?
    ensures !(Encode(ch) <= s)
  {
    var n := |Encode(ch)|;
    if Encode(ch) <= s {
      assert s == Encode(ch) + s[n..];
      ScanEncoded(ch, s[n..]);
    }
  }

  /**
   The lossy decoder on any bytes: a character at the front is decoded; otherwise the maximal
   subpart at the front gives one U+FFFD; and it goes on behind either.
   */
  lemma LossyStep(s: seq<byte>)
    requires s != []
    ensures forall ch | Encode(ch) <= s :: DecodeLossy(s) == [ch] + DecodeLossy(s[|Encode(ch)|..])
    ensures !HoldsCharacter(s) ==>
              exists n: nat :: MaximalSubpart(s, n) && DecodeLossy(s) == ['\U{FFFD}'] + DecodeLossy(s[n..])
  {
    forall ch | Encode(ch) <= s ensures DecodeLossy(s) == [ch] + DecodeLossy(s[|Encode(ch)|..]) {
      assert s == Encode(ch) + s[|Encode(ch)|..];
      ScanEncoded(ch, s[|Encode(ch)|..]);
    }
    var u := Scan(s);
    if u.decoded.None? {
      SubpartIsMaximal(s);
      assert MaximalSubpart(s, u.len);
    } else {
      ScannedIsEncoded(s);
      assert Encode(u.decoded.value) <= s;
    }
  }

  lemma SubpartIsMaximal(s: seq<byte>)
    requires s != [] && Scan(s).decoded.None?
    ensures MaximalSubpart(s, Scan(s).len) && !HoldsCharacter(s)
  {
    var n := Scan(s).len;
    if n > 1 { ScanGoesAsFarAsACharacter(s); }
    forall m, ch | n < m <= |s| ensures !(s[..m] <= Encode(ch)) {
      ScanStopsWhereNoCharacterGoes(s, m, ch);
    }
    forall ch ensures !(Encode(ch) <= s) { NoneMeansNoCharacter(s, ch); }
  }

  /** There is only one maximal subpart. */
  lemma OneMaximalSubpart(s: seq<byte>, m: nat, n: nat)
    requires MaximalSubpart(s, m) && MaximalSubpart(s, n)
    ensures m == n
  {
  }
}
