/**
 The sampling key of an access log line: the first eight bytes of a hexadecimal request id, or
 a mixed hash of any other.  64-bit words are naturals below 2^64.
 */
module Sampling {
  import opened Text

  const TWO_64: nat := 0x1_0000_0000_0000_0000

  type Word = v: nat | v < 0x1_0000_0000_0000_0000

  // ---------------------------------------------------------------- words

  /** Bitwise exclusive or. */
  function Xor(a: nat, b: nat): nat
    decreases a + b
  {
    if a == 0 && b == 0 then 0 else (a + b) % 2 + 2 * Xor(a / 2, b / 2)
  }

  /** Shift to the right. */
  function Drop(a: nat, k: nat): nat {
    if k == 0 then a else Drop(a / 2, k - 1)
  }

  function Pow2(k: nat): (r: nat)
    ensures r > 0
  {
    if k == 0 then 1 else 2 * Pow2(k - 1)
  }

  lemma XorHalves(a: nat, b: nat)
    ensures Xor(a, b) / 2 == Xor(a / 2, b / 2) && Xor(a, b) % 2 == (a + b) % 2
  {
  }

  lemma {:induction false} XorTwice(a: nat, b: nat)
    ensures Xor(Xor(a, b), b) == a
    decreases a + b
  {
    if a != 0 || b != 0 {
      var x := Xor(a, b);
      XorHalves(a, b);
      XorHalves(x, b);
      XorTwice(a / 2, b / 2);
      LastBit(a, b, x);
    }
  }

  lemma LastBit(a: nat, b: nat, x: nat)
    requires x % 2 == (a + b) % 2
    ensures (x + b) % 2 == a % 2
  {
  }

  lemma {:induction false} XorBelow(a: nat, b: nat, k: nat)
    requires a < Pow2(k) && b < Pow2(k)
    ensures Xor(a, b) < Pow2(k)
  {
    if k > 0 && (a != 0 || b != 0) {
      XorBelow(a / 2, b / 2, k - 1);
    }
  }

  lemma {:induction false} XorDrops(a: nat, b: nat, k: nat)
    ensures Drop(Xor(a, b), k) == Xor(Drop(a, k), Drop(b, k))
  {
    if k > 0 {
      XorDrops(a / 2, b / 2, k - 1);
      XorHalves(a, b);
    }
  }

  lemma {:induction false} DropTwice(a: nat, k: nat, m: nat)
    requires a < Pow2(k + m)
    ensures Drop(a, k) < Pow2(m)
  {
    if k > 0 {
      DropTwice(a / 2, k - 1, m);
    }
  }

  lemma {:induction false} PowGrows(k: nat, m: nat)
    requires k <= m
    ensures Pow2(k) <= Pow2(m)
  {
    if k < m {
      PowGrows(k, m - 1);
    }
  }

  lemma Pow8(k: nat)
    ensures Pow2(k + 8) == 256 * Pow2(k)
  {
    assert Pow2(k + 4) == 16 * Pow2(k) by {
      assert Pow2(k + 2) == 4 * Pow2(k);
    }
    assert Pow2(k + 6) == 4 * Pow2(k + 4);
  }

  lemma Pow64()
    ensures Pow2(64) == TWO_64
  {
    assert Pow2(0) == 1;
    Pow8(0);
    Pow8(8);
    Pow8(16);
    Pow8(24);
    Pow8(32);
    Pow8(40);
    Pow8(48);
    Pow8(56);
  }

  // ---------------------------------------------------------------- the mixer

  const FIRST_FACTOR: nat := 0xff51afd7ed558ccd
  const SECOND_FACTOR: nat := 0xc4ceb9fe1a85ec53
  const FIRST_INVERSE: nat := 0x4f74430c22a54005
  const SECOND_INVERSE: nat := 0x9cb4b2f8129337db

  lemma WordXor(a: Word, b: Word)
    ensures Xor(a, b) < TWO_64
  {
    Pow64();
    XorBelow(a, b, 64);
  }

  lemma {:induction false} DropSmaller(a: nat, k: nat)
    ensures Drop(a, k) <= a
  {
    if k > 0 {
      DropSmaller(a / 2, k - 1);
    }
  }

  /** v ^ (v >> 33). */
  function XorShift(v: Word): Word {
    DropSmaller(v, 33);
    WordXor(v, Drop(v, 33));
    Xor(v, Drop(v, 33))
  }

  /** Multiplication drops everything above 64 bits. */
  function Times(v: Word, factor: nat): Word {
    v * factor % TWO_64
  }

  function Mixed(v: Word): Word {
    XorShift(Times(XorShift(Times(XorShift(v), FIRST_FACTOR)), SECOND_FACTOR))
  }

  function Unmixed(v: Word): Word {
    XorShift(Times(XorShift(Times(XorShift(v), SECOND_INVERSE)), FIRST_INVERSE))
  }

  lemma {:induction false} DropMore(v: nat, k: nat, m: nat)
    ensures Drop(v, k + m) == Drop(Drop(v, k), m)
  {
    if k > 0 {
      DropMore(v / 2, k - 1, m);
    }
  }

  lemma DropThree(v: nat)
    ensures Drop(v, 3) == v / 8
  {
    assert Drop(v / 2 / 2, 1) == v / 8;
  }

  lemma DropEleven(v: nat)
    ensures Drop(v, 11) == v / 2048
  {
    DropMore(v, 3, 8);
    DropMore(v / 8, 3, 5);
    DropMore(v / 64, 3, 2);
    DropThree(v);
    DropThree(v / 8);
    DropThree(v / 64);
    assert Drop(v / 512, 2) == Drop(v / 512 / 2, 1) == v / 512 / 2 / 2;
  }

  lemma ElevenThrice(v: nat)
    ensures v / 2048 / 2048 / 2048 == v / 0x2_0000_0000
  {
  }

  lemma DropIs(v: nat)
    ensures Drop(v, 33) == v / 2048 / 2048 / 2048
  {
    DropMore(v, 11, 22);
    DropMore(v / 2048, 11, 11);
    DropEleven(v);
    DropEleven(v / 2048);
    DropEleven(v / 2048 / 2048);
  }

  /** Shifting by 33 bits is dividing by 2 to the power of 33. */
  lemma XorShiftIs(v: Word)
    ensures XorShift(v) == Xor(v, v / 0x2_0000_0000)
  {
    DropIs(v);
    ElevenThrice(v);
  }

  /** The xor-shift undoes itself: the bits that are shifted in are not changed by it. */
  lemma XorShiftTwice(v: Word)
    ensures XorShift(XorShift(v)) == v
  {
    var top := Drop(v, 33);
    Pow64();
    DropTwice(v, 33, 31);
    PowGrows(31, 33);
    DropTwice(top, 33, 0);
    XorDrops(v, top, 33);
    XorZero(top);
    XorTwice(v, top);
  }

  lemma {:induction false} XorZero(a: nat)
    ensures Xor(a, 0) == a
  {
    if a != 0 {
      XorZero(a / 2);
    }
  }

  /** Odd factors have inverses modulo 2^64. */
  lemma TimesUndone(v: Word, f: nat, g: nat, k: nat)
    requires f * g == k * TWO_64 + 1
    ensures Times(Times(v, f), g) == v
  {
    var q, r := v * f / TWO_64, v * f % TWO_64;
    assert r == v * f - q * TWO_64;
    calc {
      r * g;
      (v * f - q * TWO_64) * g;
      v * (f * g) - q * TWO_64 * g;
      v * (k * TWO_64 + 1) - q * TWO_64 * g;
      (v * k - q * g) * TWO_64 + v;
    }
    RemainderIs(r * g, v * k - q * g, v);
  }

  lemma RemainderIs(x: int, q: int, v: Word)
    requires x == q * TWO_64 + v
    ensures x % TWO_64 == v
  {
  }

  lemma FirstFactorUndone(v: Word)
    ensures Times(Times(v, FIRST_FACTOR), FIRST_INVERSE) == v
    ensures Times(Times(v, FIRST_INVERSE), FIRST_FACTOR) == v
  {
    assert FIRST_FACTOR * FIRST_INVERSE == 0x4f3e2925cb7c5b4e * TWO_64 + 1;
    TimesUndone(v, FIRST_FACTOR, FIRST_INVERSE, 0x4f3e2925cb7c5b4e);
    TimesUndone(v, FIRST_INVERSE, FIRST_FACTOR, 0x4f3e2925cb7c5b4e);
  }

  lemma SecondFactorUndone(v: Word)
    ensures Times(Times(v, SECOND_FACTOR), SECOND_INVERSE) == v
    ensures Times(Times(v, SECOND_INVERSE), SECOND_FACTOR) == v
  {
    assert SECOND_FACTOR * SECOND_INVERSE == 0x7878e44812b2d581 * TWO_64 + 1;
    TimesUndone(v, SECOND_FACTOR, SECOND_INVERSE, 0x7878e44812b2d581);
    TimesUndone(v, SECOND_INVERSE, SECOND_FACTOR, 0x7878e44812b2d581);
  }

  /** The mixer is a bijection on 64-bit words. */
  lemma MixUndone(v: Word)
    ensures Unmixed(Mixed(v)) == v && Mixed(Unmixed(v)) == v
  {
    var a := XorShift(v);
    var b := Times(a, FIRST_FACTOR);
    var c := XorShift(b);
    var d := Times(c, SECOND_FACTOR);
    XorShiftTwice(d);
    SecondFactorUndone(c);
    XorShiftTwice(b);
    FirstFactorUndone(a);
    XorShiftTwice(v);
    var e := Times(a, SECOND_INVERSE);
    var f := XorShift(e);
    var g := Times(f, FIRST_INVERSE);
    XorShiftTwice(g);
    FirstFactorUndone(f);
    XorShiftTwice(e);
    SecondFactorUndone(a);
  }

  /** The mixer in plain arithmetic: three xor-shifts with a multiplication after each of the
      first two. */
  predicate Mixes(v: Word, value: nat) {
    var a := Xor(v, v / 0x2_0000_0000);
    var b := a * 0xff51afd7ed558ccd % 0x1_0000_0000_0000_0000;
    var c := Xor(b, b / 0x2_0000_0000);
    var d := c * 0xc4ceb9fe1a85ec53 % 0x1_0000_0000_0000_0000;
    value == Xor(d, d / 0x2_0000_0000)
  }

  lemma MixedMixes(v: Word)
    ensures Mixes(v, Mixed(v))
  {
    XorShiftIs(v);
    var b := Times(XorShift(v), FIRST_FACTOR);
    XorShiftIs(b);
    XorShiftIs(Times(XorShift(b), SECOND_FACTOR));
  }

  /** mixUint64: no information is lost, the input can be computed back. */
  method MixUint64(input: Word) returns (value: Word)
    ensures Mixes(input, value)
    ensures value == Mixed(input) && Unmixed(value) == input
  {
    MixedMixes(input);
    value := input;
    value := XorShift(value);
    value := Times(value, FIRST_FACTOR);
    value := XorShift(value);
    value := Times(value, SECOND_FACTOR);
    value := XorShift(value);
    MixUndone(input);
  }

  // ---------------------------------------------------------------- hexadecimal ids

  /** hexNibble. */
  function HexNibble(c: char): Option<nat> {
    if '0' <= c <= '9' then Some((c - '0') as nat)
    else if 'a' <= c <= 'f' then Some((c - 'a') as nat + 10)
    else if 'A' <= c <= 'F' then Some((c - 'A') as nat + 10)
    else None
  }

  /** The digits are those of either case. */
  lemma HexNibbleExactlyWhen(c: char, v: nat)
    ensures HexNibble(c) == Some(v)
            <==> v < 16 && (c == "0123456789abcdef"[v] || c == "0123456789ABCDEF"[v])
  {
  }

  /** A byte string is rendered with two digits per byte, in either case. */
  predicate Renders(text: string, bytes: seq<nat>) {
    && |text| == 2 * |bytes|
    && forall i | 0 <= i < |bytes| ::
         && bytes[i] < 256
         && HexNibble(text[2 * i]) == Some(bytes[i] / 16)
         && HexNibble(text[2 * i + 1]) == Some(bytes[i] % 16)
  }

  /** The number with these digits, the first one highest. */
  function BigEndian(digits: seq<nat>, base: nat): nat {
    if digits == [] then 0 else BigEndian(digits[..|digits| - 1], base) * base + digits[|digits| - 1]
  }

  predicate AllHex(text: string) {
    forall c | c in text :: HexNibble(c).Some?
  }

  function Nibbles(text: string): (r: seq<nat>)
    requires AllHex(text)
    ensures |r| == |text| && forall i | 0 <= i < |r| :: Some(r[i]) == HexNibble(text[i]) && r[i] < 16
  {
    seq(|text|, i requires 0 <= i < |text| => assert text[i] in text; HexNibble(text[i]).value)
  }

  lemma {:induction false} BigEndianBelow(digits: seq<nat>, k: nat)
    requires |digits| == k && forall i | 0 <= i < k :: digits[i] < 16
    ensures BigEndian(digits, 16) < Pow2(4 * k)
  {
    if k > 0 {
      BigEndianBelow(digits[..k - 1], k - 1);
      assert Pow2(4 * k) == 4 * Pow2(4 * k - 2) == 16 * Pow2(4 * (k - 1));
    }
  }

  /** One more digit. */
  lemma NibblesSnoc(text: string, i: nat)
    requires i < |text| && AllHex(text[..i]) && HexNibble(text[i]).Some?
    ensures AllHex(text[..i + 1])
    ensures BigEndian(Nibbles(text[..i + 1]), 16) == BigEndian(Nibbles(text[..i]), 16) * 16 + HexNibble(text[i]).value
    ensures i < 16 ==> BigEndian(Nibbles(text[..i]), 16) * 16 + HexNibble(text[i]).value < TWO_64
  {
    assert text[..i + 1] == text[..i] + [text[i]];
    assert Nibbles(text[..i + 1])[..i] == Nibbles(text[..i]);
    if i < 16 {
      NibblesBelow(text[..i + 1]);
    }
  }

  lemma NibblesBelow(text: string)
    requires AllHex(text) && |text| <= 16
    ensures BigEndian(Nibbles(text), 16) < TWO_64
  {
    BigEndianBelow(Nibbles(text), |text|);
    PowGrows(4 * |text|, 64);
    Pow64();
  }

  /** parseHexPrefix64: the first sixteen digits, highest first; shifting by four bits loses
      nothing that sixteen digits can set. */
  method ParseHexPrefix64(text: string) returns (key: Option<Word>)
    ensures key.Some? <==> |text| >= 16 && AllHex(text[..16])
    ensures key.Some? ==> key.value == BigEndian(Nibbles(text[..16]), 16)
  {
    if |text| < 16 {
      return None;
    }
    var out: Word := 0;
    for i := 0 to 16
      invariant AllHex(text[..i])
      invariant out == BigEndian(Nibbles(text[..i]), 16)
    {
      var nibble := HexNibble(text[i]);
      if nibble.None? {
        assert text[i] in text[..16];
        return None;
      }
      NibblesSnoc(text, i);
      out := out * 16 % TWO_64 + nibble.value;
    }
    key := Some(out);
  }

  lemma BigEndianSnoc(digits: seq<nat>, n: nat, base: nat)
    requires n < |digits|
    ensures BigEndian(digits[..n + 1], base) == BigEndian(digits[..n], base) * base + digits[n]
  {
    assert digits[..n + 1][..n] == digits[..n];
  }

  lemma PairValue(x: nat, b: nat)
    ensures (x * 16 + b / 16) * 16 + b % 16 == x * 256 + b
  {
  }

  lemma {:induction false} PairsAreBytes(text: string, bytes: seq<nat>, n: nat)
    requires Renders(text, bytes) && n <= |bytes|
    ensures AllHex(text[..2 * n]) && BigEndian(Nibbles(text[..2 * n]), 16) == BigEndian(bytes[..n], 256)
  {
    if n > 0 {
      var m := n - 1;
      PairsAreBytes(text, bytes, m);
      var x, b := BigEndian(bytes[..m], 256), bytes[m];
      assert HexNibble(text[2 * m]) == Some(b / 16) && HexNibble(text[2 * m + 1]) == Some(b % 16);
      NibblesSnoc(text, 2 * m);
      NibblesSnoc(text, 2 * m + 1);
      BigEndianSnoc(bytes, m, 256);
      PairValue(x, b);
    }
  }

  /** The key of a rendered id is the big-endian value of its first eight bytes. */
  lemma HexKeyIsPrefix(text: string, bytes: seq<nat>)
    requires Renders(text, bytes) && |bytes| >= 8
    ensures AllHex(text[..16]) && BigEndian(Nibbles(text[..16]), 16) == BigEndian(bytes[..8], 256)
  {
    PairsAreBytes(text, bytes, 8);
  }

  // ---------------------------------------------------------------- other ids

  const GOLDEN: nat := 0x9e3779b97f4a7c15

  function Codes(text: string): (r: seq<nat>)
    ensures |r| == |text| && forall i | 0 <= i < |r| :: r[i] == text[i] as nat
  {
    seq(|text|, i requires 0 <= i < |text| => text[i] as nat)
  }

  function Head(text: string): string {
    if |text| > 8 then text[..8] else text
  }

  lemma {:induction false} CodesBelow(text: string)
    requires IsBytes(text) && |text| <= 8
    ensures BigEndian(Codes(text), 256) < Pow2(8 * |text|)
  {
    if text != "" {
      var n := |text| - 1;
      assert Codes(text)[..n] == Codes(text[..n]);
      CodesBelow(text[..n]);
      Pow8(8 * n);
    }
  }

  lemma HeadIsWord(text: string)
    requires IsBytes(text)
    ensures BigEndian(Codes(Head(text)), 256) < TWO_64
  {
    CodesBelow(Head(text));
    PowGrows(8 * |Head(text)|, 64);
    Pow64();
  }

  /** The key of an id that does not start with sixteen hexadecimal digits. */
  function HashKey(text: string): Word
    requires IsBytes(text)
  {
    HeadIsWord(text);
    WordXor(BigEndian(Codes(Head(text)), 256), |text| * GOLDEN % TWO_64);
    Mixed(Xor(BigEndian(Codes(Head(text)), 256), |text| * GOLDEN % TWO_64))
  }

  /** Undoing the mixing leaves the first eight bytes and the length. */
  predicate Hashes(text: string, key: Word)
    requires IsBytes(text)
  {
    var head := text[..if |text| < 8 then |text| else 8];
    Unmixed(key) == Xor(BigEndian(Codes(head), 256), |text| * 0x9e3779b97f4a7c15 % 0x1_0000_0000_0000_0000)
  }

  lemma HashKeyHashes(text: string)
    requires IsBytes(text)
    ensures Hashes(text, HashKey(text))
  {
    HeadIsWord(text);
    WordXor(BigEndian(Codes(Head(text)), 256), |text| * GOLDEN % TWO_64);
    MixUndone(Xor(BigEndian(Codes(Head(text)), 256), |text| * GOLDEN % TWO_64));
    assert Head(text) == text[..if |text| < 8 then |text| else 8];
  }

  /** One more byte. */
  lemma CodesSnoc(text: string, i: nat)
    requires IsBytes(text) && i < |text| && i < 8
    ensures BigEndian(Codes(text[..i + 1]), 256) == BigEndian(Codes(text[..i]), 256) * 256 + text[i] as nat < TWO_64
  {
    assert Codes(text[..i + 1])[..i] == Codes(text[..i]);
    CodesBelow(text[..i + 1]);
    PowGrows(8 * (i + 1), 64);
    Pow64();
  }

  /** The loop over the first eight bytes; shifting by eight bits loses nothing. */
  method PackHead(text: string) returns (key: Word)
    requires IsBytes(text)
    ensures key == BigEndian(Codes(Head(text)), 256)
  {
    var limit := |text|;
    if limit > 8 {
      limit := 8;
    }
    key := 0;
    for i := 0 to limit
      invariant key == BigEndian(Codes(text[..i]), 256)
    {
      CodesSnoc(text, i);
      key := key * 256 % TWO_64 + text[i] as nat;
    }
    assert text[..limit] == Head(text);
  }

  /** sampleKeyFromRequestID. */
  method SampleKey(text: string) returns (key: Word)
    requires IsBytes(text)
    ensures
      if |text| >= 16 && AllHex(text[..16]) then key == BigEndian(Nibbles(text[..16]), 16)
      else
        key == HashKey(text) && Hashes(text, key)
  {
    var parsed := ParseHexPrefix64(text);
    if parsed.Some? {
      return parsed.value;
    }
    var packed := PackHead(text);
    WordXor(packed, |text| * GOLDEN % TWO_64);
    key := MixUint64(Xor(packed, |text| * GOLDEN % TWO_64));
    HashKeyHashes(text);
  }

  lemma {:induction false} BigEndianInjective(a: seq<nat>, b: seq<nat>)
    requires |a| == |b| && forall i | 0 <= i < |a| :: a[i] < 256 && b[i] < 256
    requires BigEndian(a, 256) == BigEndian(b, 256)
    ensures a == b
  {
    if a != [] {
      var n := |a| - 1;
      BigEndianInjective(a[..n], b[..n]);
      assert a == a[..n] + [a[n]] && b == b[..n] + [b[n]];
    }
  }

  const GOLDEN_INVERSE: nat := 0xf1de83e19937733d

  /** The length is mixed in without loss. */
  lemma SaltUndone(v: Word)
    ensures Times(Times(v, GOLDEN), GOLDEN_INVERSE) == v
  {
    assert GOLDEN * GOLDEN_INVERSE == 0x957bbf35006ed677 * TWO_64 + 1;
    TimesUndone(v, GOLDEN, GOLDEN_INVERSE, 0x957bbf35006ed677);
  }

  lemma XorSame(head: nat, s: nat, t: nat)
    requires Xor(head, s) == Xor(head, t)
    ensures s == t
  {
    XorCommutes(head, s);
    XorCommutes(head, t);
    XorTwice(s, head);
    XorTwice(t, head);
  }

  lemma SaltSeparates(m: Word, n: Word)
    requires Times(m, GOLDEN) == Times(n, GOLDEN)
    ensures m == n
  {
    SaltUndone(m);
    SaltUndone(n);
  }

  /** Ids that start with the same bytes collide only if they have the same length. */
  lemma LengthSeparates(a: string, b: string)
    requires IsBytes(a) && IsBytes(b) && |a| < TWO_64 && |b| < TWO_64 && Head(a) == Head(b)
    ensures HashKey(a) == HashKey(b) <==> |a| == |b|
  {
    if HashKey(a) == HashKey(b) {
      HashKeyHashes(a);
      HashKeyHashes(b);
      assert Head(a) == a[..if |a| < 8 then |a| else 8] && Head(b) == b[..if |b| < 8 then |b| else 8];
      XorSame(BigEndian(Codes(Head(a)), 256), Times(|a|, GOLDEN), Times(|b|, GOLDEN));
      SaltSeparates(|a|, |b|);
    }
  }

  lemma {:induction false} XorCommutes(a: nat, b: nat)
    ensures Xor(a, b) == Xor(b, a)
    decreases a + b
  {
    if a != 0 || b != 0 {
      XorCommutes(a / 2, b / 2);
    }
  }

  /** Ids of one length collide only if their first eight bytes are the same. */
  lemma HashKeySeparates(a: string, b: string)
    requires IsBytes(a) && IsBytes(b) && |a| == |b|
    ensures HashKey(a) == HashKey(b) <==> Head(a) == Head(b)
  {
    if HashKey(a) == HashKey(b) {
      var salt := |a| * GOLDEN % TWO_64;
      var x, y := BigEndian(Codes(Head(a)), 256), BigEndian(Codes(Head(b)), 256);
      HeadIsWord(a);
      HeadIsWord(b);
      WordXor(x, salt);
      WordXor(y, salt);
      MixUndone(Xor(x, salt));
      MixUndone(Xor(y, salt));
      XorTwice(x, salt);
      XorTwice(y, salt);
      BigEndianInjective(Codes(Head(a)), Codes(Head(b)));
      forall i | 0 <= i < |Head(a)| ensures Head(a)[i] == Head(b)[i] {
        assert Codes(Head(a))[i] == Codes(Head(b))[i];
      }
      assert Head(a) == Head(b);
    }
  }
}
