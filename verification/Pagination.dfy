/**
 Cursor pagination: opaque offset cursors in unpadded base64url (section 5 of RFC 4648), page
 queries, and the walk a client makes by following next_cursor.
 */
module Pagination {
  import opened Text

  const MAX_INT := 0x7FFF_FFFF_FFFF_FFFF

  // ---------------------------------------------------------------- base64url

  type Byte = b: nat | b < 256
  type Sextet = v: nat | v < 64

  function Symbol(v: Sextet): char {
    if v < 26 then 'A' + v as char
    else if v < 52 then 'a' + (v - 26) as char
    else if v < 62 then '0' + (v - 52) as char
    else if v == 62 then '-'
    else '_'
  }

  function ValueOf(c: char): Option<Sextet> {
    if 'A' <= c <= 'Z' then Some((c - 'A') as nat)
    else if 'a' <= c <= 'z' then Some((c - 'a') as nat + 26)
    else if '0' <= c <= '9' then Some((c - '0') as nat + 52)
    else if c == '-' then Some(62)
    else if c == '_' then Some(63)
    else None
  }

  /** The alphabet of section 5 of RFC 4648: the upper-case letters, the lower-case ones, the
      digits, and the two signs that are safe in URLs. */
  lemma AlphabetIs(v: Sextet)
    ensures Symbol(0) == 'A' && Symbol(26) == 'a' && Symbol(52) == '0' && Symbol(62) == '-' && Symbol(63) == '_'
    ensures v < 63 && v !in {25, 51, 61, 62} ==> Symbol(v + 1) as int == Symbol(v) as int + 1
  {
  }

  lemma ValueExactlyWhen(c: char, v: Sextet)
    ensures ValueOf(c) == Some(v) <==> c == Symbol(v)
  {
  }

  function First(a: Byte): Sextet {
    a / 4
  }

  function Second(a: Byte, b: Byte): Sextet {
    a % 4 * 16 + b / 16
  }

  function Third(b: Byte, c: Byte): Sextet {
    b % 16 * 4 + c / 64
  }

  function Fourth(c: Byte): Sextet {
    c % 64
  }

  /** Three bytes make four sextets; a shorter last group leaves out the symbols it does not
      need. */
  function Sextets(bytes: seq<Byte>): seq<Sextet> {
    if bytes == [] then []
    else if |bytes| == 1 then [First(bytes[0]), Second(bytes[0], 0)]
    else if |bytes| == 2 then [First(bytes[0]), Second(bytes[0], bytes[1]), Third(bytes[1], 0)]
    else
      [First(bytes[0]), Second(bytes[0], bytes[1]), Third(bytes[1], bytes[2]), Fourth(bytes[2])] + Sextets(bytes[3..])
  }

  /** A single sextet left over cannot come from whole bytes; spare bits are dropped. */
  function Bytes(v: seq<Sextet>): Option<seq<Byte>> {
    if v == [] then Some([])
    else if |v| == 1 then None
    else if |v| == 2 then Some([High(v[0], v[1])])
    else if |v| == 3 then Some([High(v[0], v[1]), Middle(v[1], v[2])])
    else
      var rest := Bytes(v[4..]);
      if rest.None? then None
      else Some([High(v[0], v[1]), Middle(v[1], v[2]), Low(v[2], v[3])] + rest.value)
  }

  function High(a: Sextet, b: Sextet): Byte {
    a * 4 + b / 16
  }

  function Middle(a: Sextet, b: Sextet): Byte {
    a % 16 * 16 + b / 4
  }

  function Low(a: Sextet, b: Sextet): Byte {
    a % 4 * 64 + b
  }

  /** The number with these digits, the first one highest. */
  function Number(digits: seq<nat>, base: nat): nat {
    if digits == [] then 0 else Number(digits[..|digits| - 1], base) * base + digits[|digits| - 1]
  }

  lemma GroupBack(a: Byte, b: Byte, c: Byte)
    ensures High(First(a), Second(a, b)) == a
    ensures Middle(Second(a, b), Third(b, c)) == b
    ensures Low(Third(b, c), Fourth(c)) == c
  {
  }

  lemma BytesOfGroup(p: Sextet, q: Sextet, r: Sextet, t: Sextet, rest: seq<Sextet>)
    requires Bytes(rest).Some?
    ensures Bytes([p, q, r, t] + rest) == Some([High(p, q), Middle(q, r), Low(r, t)] + Bytes(rest).value)
  {
    assert ([p, q, r, t] + rest)[4..] == rest;
  }

  lemma BytesOfShort(p: Sextet, q: Sextet, r: Sextet)
    ensures Bytes([p, q]) == Some([High(p, q)])
    ensures Bytes([p, q, r]) == Some([High(p, q), Middle(q, r)])
  {
  }

  lemma HighBack(a: Byte)
    ensures High(First(a), Second(a, 0)) == a
  {
  }

  lemma BytesOfOne(a: Byte)
    ensures Bytes(Sextets([a])) == Some([a])
  {
    HighBack(a);
  }

  lemma BytesOfTwo(a: Byte, b: Byte)
    ensures Bytes(Sextets([a, b])) == Some([a, b])
  {
    GroupBack(a, b, 0);
    BytesOfShort(First(a), Second(a, b), Third(b, 0));
  }

  lemma BytesOfThree(a: Byte, b: Byte, c: Byte, rest: seq<Byte>)
    requires Bytes(Sextets(rest)) == Some(rest)
    ensures Bytes(Sextets([a, b, c] + rest)) == Some([a, b, c] + rest)
  {
    GroupBack(a, b, c);
    assert ([a, b, c] + rest)[3..] == rest;
    BytesOfGroup(First(a), Second(a, b), Third(b, c), Fourth(c), Sextets(rest));
  }

  lemma NumberSnoc(digits: seq<nat>, d: nat, base: nat)
    ensures Number(digits + [d], base) == Number(digits, base) * base + d
  {
    assert (digits + [d])[..|digits|] == digits;
  }

  lemma {:induction false} NumberAppend(u: seq<nat>, v: seq<nat>, base: nat)
    ensures Number(u + v, base) == Number(u, base) * Power(base, |v|) + Number(v, base)
  {
    if v == [] {
      assert u + v == u;
    } else {
      var n := |v| - 1;
      assert u + v == (u + v[..n]) + [v[n]];
      NumberSnoc(u + v[..n], v[n], base);
      NumberAppend(u, v[..n], base);
      Distribute(Number(u, base), Power(base, n), base, Number(v[..n], base));
    }
  }

  function Power(base: nat, n: nat): nat {
    if n == 0 then 1 else Power(base, n - 1) * base
  }

  lemma Distribute(u: nat, p: nat, base: nat, v: nat)
    ensures (u * p + v) * base == u * (p * base) + v * base
  {
  }

  /** What the spare bits of the last symbol multiply by. */
  function Spare(n: nat): nat {
    if n % 3 == 0 then 1 else if n % 3 == 1 then 16 else 4
  }

  lemma PowersStep(n: nat)
    ensures Power(64, n + 4) == Power(64, n) * 16777216
    ensures Power(256, n + 3) == Power(256, n) * 16777216
  {
    assert Power(64, n + 2) == Power(64, n + 1) * 64 == Power(64, n) * 64 * 64;
    assert Power(64, n + 4) == Power(64, n + 3) * 64 == Power(64, n + 2) * 64 * 64;
    assert Power(256, n + 3) == Power(256, n + 2) * 256 == Power(256, n + 1) * 256 * 256;
  }

  lemma {:induction false} PowersMatch(n: nat)
    ensures Power(64, (4 * n + 2) / 3) == Power(256, n) * Spare(n)
  {
    if n < 3 {
      assert Power(64, 1) == 64 && Power(256, 1) == 256;
      assert Power(64, 2) == 4096 && Power(256, 2) == 65536 && Power(64, 3) == 262144;
    } else {
      PowersMatch(n - 3);
      PowersStep(n - 3);
      PowersStep((4 * (n - 3) + 2) / 3);
      assert (4 * n + 2) / 3 == (4 * (n - 3) + 2) / 3 + 4;
      assert Spare(n) == Spare(n - 3);
    }
  }

  lemma {:induction false} SextetsCount(bytes: seq<Byte>)
    ensures |Sextets(bytes)| == (4 * |bytes| + 2) / 3
  {
    if |bytes| > 2 {
      SextetsCount(bytes[3..]);
    }
  }

  lemma NumberOne(p: nat, base: nat)
    ensures Number([p], base) == p
  {
    assert [p][..0] == [];
  }

  lemma NumberTwo(p: nat, q: nat, base: nat)
    ensures Number([p, q], base) == p * base + q
  {
    NumberOne(p, base);
    NumberSnoc([p], q, base);
    assert [p] + [q] == [p, q];
  }

  lemma NumberThree(p: nat, q: nat, r: nat, base: nat)
    ensures Number([p, q, r], base) == (p * base + q) * base + r
  {
    NumberTwo(p, q, base);
    NumberSnoc([p, q], r, base);
    assert [p, q] + [r] == [p, q, r];
  }

  lemma NumberFour(p: nat, q: nat, r: nat, t: nat, base: nat)
    ensures Number([p, q, r, t], base) == ((p * base + q) * base + r) * base + t
  {
    NumberThree(p, q, r, base);
    NumberSnoc([p, q, r], t, base);
    assert [p, q, r] + [t] == [p, q, r, t];
  }

  lemma GroupNumber(a: Byte, b: Byte, c: Byte)
    ensures ((First(a) * 64 + Second(a, b)) * 64 + Third(b, c)) * 64 + Fourth(c) == (a * 256 + b) * 256 + c
    ensures (First(a) * 64 + Second(a, b)) * 64 + Third(b, 0) == (a * 256 + b) * 4
    ensures First(a) * 64 + Second(a, 0) == a * 16
  {
  }

  lemma Combine(g: nat, p: nat, q: nat, rest: nat, sextets: nat, spare: nat, whole: nat, all: nat)
    requires whole == g * p + rest && all == g * q + sextets
    requires q == p * spare && sextets == rest * spare
    ensures all == whole * spare
  {
    assert g * q == g * p * spare;
  }

  lemma SpareStays(n: nat)
    ensures Spare(n + 3) == Spare(n)
  {
  }

  predicate SameNumber(bytes: seq<Byte>) {
    Number(Sextets(bytes), 64) == Number(bytes, 256) * Spare(|bytes|)
  }

  lemma OneDigits(a: Byte)
    ensures SameNumber([a])
  {
    NumberOne(a, 256);
    NumberTwo(First(a), Second(a, 0), 64);
    GroupNumber(a, 0, 0);
  }

  lemma TwoDigits(a: Byte, b: Byte)
    ensures SameNumber([a, b])
  {
    var u := [First(a), Second(a, b), Third(b, 0)];
    assert Sextets([a, b]) == u;
    NumberTwo(a, b, 256);
    NumberThree(First(a), Second(a, b), Third(b, 0), 64);
    GroupNumber(a, b, 0);
    assert Number(u, 64) == Number([a, b], 256) * 4;
  }

  /** The symbols are the digits in base 64 of the number whose digits in base 256 are the bytes,
      with zeros for the spare bits of the last symbol. */
  lemma {:induction false} SextetsAreDigits(bytes: seq<Byte>)
    ensures SameNumber(bytes)
    decreases |bytes|, 0
  {
    if |bytes| == 1 {
      OneDigits(bytes[0]);
      assert bytes == [bytes[0]];
    } else if |bytes| == 2 {
      TwoDigits(bytes[0], bytes[1]);
      assert bytes == [bytes[0], bytes[1]];
    } else if |bytes| > 2 {
      GroupDigits(bytes[0], bytes[1], bytes[2], bytes[3..]);
      assert bytes == [bytes[0], bytes[1], bytes[2]] + bytes[3..];
    }
  }

  lemma {:induction false} GroupDigits(a: Byte, b: Byte, c: Byte, rest: seq<Byte>)
    ensures SameNumber([a, b, c] + rest)
    decreases |rest| + 2, 1
  {
    SextetsAreDigits(rest);
    SextetsCount(rest);
    PowersMatch(|rest|);
    GroupSplits(a, b, c, rest);
    GroupValue(a, b, c);
    SpareStays(|rest|);
    Combine(Number([a, b, c], 256), Power(256, |rest|), Power(64, |Sextets(rest)|), Number(rest, 256),
            Number(Sextets(rest), 64), Spare(|rest|), Number([a, b, c] + rest, 256),
            Number(Sextets([a, b, c] + rest), 64));
  }

  lemma GroupValue(a: Byte, b: Byte, c: Byte)
    ensures Number([First(a), Second(a, b), Third(b, c), Fourth(c)], 64) == Number([a, b, c], 256)
  {
    NumberThree(a, b, c, 256);
    NumberFour(First(a), Second(a, b), Third(b, c), Fourth(c), 64);
    GroupNumber(a, b, c);
  }

  lemma GroupSplits(a: Byte, b: Byte, c: Byte, rest: seq<Byte>)
    ensures
      var group := [First(a), Second(a, b), Third(b, c), Fourth(c)];
      Number(Sextets([a, b, c] + rest), 64)
      == Number(group, 64) * Power(64, |Sextets(rest)|) + Number(Sextets(rest), 64)
    ensures Number([a, b, c] + rest, 256) == Number([a, b, c], 256) * Power(256, |rest|) + Number(rest, 256)
  {
    var group := [First(a), Second(a, b), Third(b, c), Fourth(c)];
    assert ([a, b, c] + rest)[3..] == rest;
    assert Sextets([a, b, c] + rest) == group + Sextets(rest);
    NumberAppend(group, Sextets(rest), 64);
    NumberAppend([a, b, c], rest, 256);
  }

  lemma {:induction false} BytesOfSextets(bytes: seq<Byte>)
    ensures Bytes(Sextets(bytes)) == Some(bytes)
  {
    if |bytes| == 1 {
      BytesOfOne(bytes[0]);
      assert bytes == [bytes[0]];
    } else if |bytes| == 2 {
      BytesOfTwo(bytes[0], bytes[1]);
      assert bytes == [bytes[0], bytes[1]];
    } else if |bytes| > 2 {
      BytesOfSextets(bytes[3..]);
      BytesOfThree(bytes[0], bytes[1], bytes[2], bytes[3..]);
      assert bytes == [bytes[0], bytes[1], bytes[2]] + bytes[3..];
    }
  }

  function Symbols(v: seq<Sextet>): (s: string)
    ensures |s| == |v| && forall i | 0 <= i < |s| :: s[i] == Symbol(v[i])
  {
    seq(|v|, i requires 0 <= i < |v| => Symbol(v[i]))
  }

  /** The decoder skips line breaks and refuses every other foreign character. */
  function Values(s: string): Option<seq<Sextet>> {
    if s == "" then Some([])
    else
      var rest := Values(s[1..]);
      if rest.None? then None
      else if s[0] == '\r' || s[0] == '\n' then rest
      else if ValueOf(s[0]).None? then None
      else Some([ValueOf(s[0]).value] + rest.value)
  }

  lemma SymbolIsPlain(v: Sextet)
    ensures ValueOf(Symbol(v)) == Some(v) && !IsSpace(Symbol(v))
  {
  }

  lemma {:induction false} ValuesOfSymbols(v: seq<Sextet>)
    ensures Values(Symbols(v)) == Some(v)
  {
    if v != [] {
      SymbolIsPlain(v[0]);
      ValuesOfSymbols(v[1..]);
      assert Symbols(v)[1..] == Symbols(v[1..]);
      assert v == [v[0]] + v[1..];
    }
  }

  /** The symbols without the line breaks in between. */
  function Unbroken(s: string): string {
    if s == "" then ""
    else if s[0] == '\r' || s[0] == '\n' then Unbroken(s[1..])
    else [s[0]] + Unbroken(s[1..])
  }

  lemma SymbolsCons(v: seq<Sextet>, c: char, rest: string)
    requires v != []
    ensures Symbols(v) == [c] + rest <==> Symbol(v[0]) == c && Symbols(v[1..]) == rest
  {
    assert Symbols(v) == [Symbol(v[0])] + Symbols(v[1..]);
    if Symbols(v) == [c] + rest {
      assert Symbols(v)[1..] == rest;
    }
  }

  lemma ValuesCons(v: seq<Sextet>, s: string)
    requires v != [] && s != "" && s[0] != '\r' && s[0] != '\n'
    ensures Values(s) == Some(v) <==> ValueOf(s[0]) == Some(v[0]) && Values(s[1..]) == Some(v[1..])
  {
    assert v == [v[0]] + v[1..];
    if Values(s) == Some(v) {
      assert v[1..] == Values(s[1..]).value;
    }
  }

  /** The decoder reads exactly the symbols of the alphabet, with line breaks anywhere. */
  lemma {:induction false} ValuesExactlyWhen(s: string, v: seq<Sextet>)
    ensures Values(s) == Some(v) <==> Unbroken(s) == Symbols(v)
  {
    if s != "" {
      if s[0] == '\r' || s[0] == '\n' {
        ValuesExactlyWhen(s[1..], v);
      } else if v != [] {
        ValuesExactlyWhen(s[1..], v[1..]);
        ValueExactlyWhen(s[0], v[0]);
        ValuesCons(v, s);
        SymbolsCons(v, s[0], Unbroken(s[1..]));
      }
    }
  }

  /** Only a single symbol too many is refused. */
  lemma {:induction false} BytesExactlyWhen(v: seq<Sextet>)
    ensures Bytes(v).Some? <==> |v| % 4 != 1
    ensures Bytes(v).Some? ==> |Bytes(v).value| == |v| * 3 / 4
  {
    if |v| >= 4 {
      BytesExactlyWhen(v[4..]);
    }
  }

  // ---------------------------------------------------------------- cursors

  function ByteOf(c: char): Byte {
    c as nat % 256
  }

  function ToBytes(s: string): (b: seq<Byte>)
    requires IsBytes(s)
    ensures |b| == |s| && forall i | 0 <= i < |b| :: b[i] == s[i] as nat
  {
    seq(|s|, i requires 0 <= i < |s| => ByteOf(s[i]))
  }

  function FromBytes(b: seq<Byte>): (s: string)
    ensures |s| == |b| && forall i | 0 <= i < |s| :: s[i] == b[i] as char
  {
    seq(|b|, i requires 0 <= i < |b| => b[i] as char)
  }

  /** strconv.Atoi. */
  function Atoi(s: string): Option<int> {
    var signed := s != "" && (s[0] == '+' || s[0] == '-');
    var digits := if signed then s[1..] else s;
    if digits == "" || !(forall c | c in digits :: IsDigit(c)) then None
    else
      var n := if signed && s[0] == '-' then -(DigitsValue(digits) as int) else DigitsValue(digits);
      if -MAX_INT - 1 <= n <= MAX_INT then Some(n) else None
  }

  const PREFIX := "v1:"

  lemma PayloadIsBytes(n: nat)
    ensures IsBytes(PREFIX + Decimal(n))
  {
    forall i | 0 <= i < |Decimal(n)| ensures IsDigit(Decimal(n)[i]) {
      assert Decimal(n)[i] in Decimal(n);
    }
  }

  function EncodeOffset(offset: int): string {
    var n: nat := if offset < 0 then 0 else offset;
    PayloadIsBytes(n);
    Symbols(Sextets(ToBytes(PREFIX + Decimal(n))))
  }

  function DecodeOffset(cursor: string): (r: Option<nat>)
    ensures r.Some? ==> r.value <= MAX_INT
  {
    var values := Values(Trim(cursor));
    if Trim(cursor) == "" || values.None? || Bytes(values.value).None? then None
    else
      var payload := FromBytes(Bytes(values.value).value);
      if |payload| < 3 || payload[..3] != PREFIX then None
      else
        var n := Atoi(payload[3..]);
        if n.None? || n.value < 0 then None else Some(n.value)
  }

  lemma AtoiOfDecimal(n: nat)
    requires n <= MAX_INT
    ensures Atoi(Decimal(n)) == Some(n)
  {
    DecimalValue(n);
    assert Decimal(n)[0] in Decimal(n);
  }

  /** Negative numbers are read as such, and numbers an int cannot hold are refused. */
  lemma AtoiOfSigned(n: nat)
    ensures Atoi("-" + Decimal(n)) == if n <= MAX_INT + 1 then Some(-(n as int)) else None
    ensures n > MAX_INT ==> Atoi(Decimal(n)).None?
  {
    DecimalValue(n);
    assert ("-" + Decimal(n))[1..] == Decimal(n);
    assert Decimal(n)[0] in Decimal(n);
  }

  /** Nothing else is read as a number. */
  lemma AtoiReadsDigits(s: string)
    requires Atoi(s).Some?
    ensures s != "" && forall i | 1 <= i < |s| :: IsDigit(s[i])
    ensures IsDigit(s[0]) || (s[0] in {'+', '-'} && |s| > 1)
  {
    if s[0] == '+' || s[0] == '-' {
      forall i | 1 <= i < |s| ensures IsDigit(s[i]) {
        assert s[1..][i - 1] == s[i] && s[i] in s[1..];
      }
    } else {
      forall i | 0 <= i < |s| ensures IsDigit(s[i]) {
        assert s[i] in s;
      }
    }
  }

  /** Cursors carry no white space. */
  lemma CursorIsTrimmed(offset: int)
    ensures Trim(EncodeOffset(offset)) == EncodeOffset(offset) && EncodeOffset(offset) != ""
  {
    var n: nat := if offset < 0 then 0 else offset;
    PayloadIsBytes(n);
    var v := Sextets(ToBytes(PREFIX + Decimal(n)));
    SymbolIsPlain(v[0]);
    SymbolIsPlain(v[|v| - 1]);
    TrimTrimmed(EncodeOffset(offset));
  }

  /** Decoding undoes encoding for every offset an int can hold; negative ones became zero. */
  lemma DecodeUndoesEncode(offset: int)
    requires offset <= MAX_INT
    ensures DecodeOffset(EncodeOffset(offset)) == Some(if offset < 0 then 0 else offset)
  {
    var n: nat := if offset < 0 then 0 else offset;
    PayloadIsBytes(n);
    var payload := PREFIX + Decimal(n);
    CursorIsTrimmed(offset);
    ValuesOfSymbols(Sextets(ToBytes(payload)));
    BytesOfSextets(ToBytes(payload));
    assert FromBytes(ToBytes(payload)) == payload;
    assert payload[..3] == PREFIX && payload[3..] == Decimal(n);
    AtoiOfDecimal(n);
  }

  /** The cursor of the first page. */
  lemma FirstCursor()
    ensures EncodeOffset(0) == "djE6MA"
  {
    PayloadIsBytes(0);
    var b := ToBytes(PREFIX + Decimal(0));
    assert PREFIX + Decimal(0) == "v1:0";
    assert b == [118, 49, 58, 48];
    assert Sextets([48]) == [12, 0];
    assert [118, 49, 58, 48][3..] == [48];
    assert Sextets(b) == [29, 35, 4, 58] + [12, 0];
    var v := Sextets(b);
    assert v[0] == 29 && v[1] == 35 && v[2] == 4 && v[3] == 58 && v[4] == 12 && v[5] == 0;
  }

  /** A cursor is accepted only for a payload that begins with the version and goes on with a
      number. */
  lemma DecodedIsVersioned(cursor: string)
    requires DecodeOffset(cursor).Some?
    ensures Values(Trim(cursor)).Some? && Bytes(Values(Trim(cursor)).value).Some?
    ensures
      var payload := FromBytes(Bytes(Values(Trim(cursor)).value).value);
      && |payload| > 3 && payload[0] == 'v' && payload[1] == '1' && payload[2] == ':'
      && Atoi(payload[3..]) == Some(DecodeOffset(cursor).value)
  {
    var payload := FromBytes(Bytes(Values(Trim(cursor)).value).value);
    assert payload[..3] == PREFIX;
    assert payload[0] == PREFIX[0] && payload[1] == PREFIX[1] && payload[2] == PREFIX[2];
  }

  // ---------------------------------------------------------------- queries

  datatype Query = Query(offset: nat, limit: nat)

  /** normalizeLimit. */
  function NormalizeLimit(limit: int): (r: nat)
    ensures 1 <= r <= 50
    ensures 1 <= limit <= 50 ==> r == limit
    ensures limit <= 0 ==> r == 20
    ensures limit > 50 ==> r == 50
  {
    if limit <= 0 then 20 else if limit > 50 then 50 else limit
  }

  /** parseOptionalIntQuery with its fallback of 20. */
  function ParseLimit(raw: string): Option<int> {
    if Trim(raw) == "" then Some(20)
    else if Atoi(Trim(raw)).None? || Atoi(Trim(raw)).value < 0 then None
    else Atoi(Trim(raw))
  }

  /** A limit that is not given is 20; a number is taken as it is, and a negative one refused. */
  lemma LimitIs(n: nat)
    requires 0 < n <= MAX_INT
    ensures ParseLimit("") == Some(20)
    ensures ParseLimit(Decimal(n)) == Some(n) && ParseLimit("-" + Decimal(n)).None?
  {
    var s, t := Decimal(n), "-" + Decimal(n);
    assert s[0] in s && s[|s| - 1] in s && t[|t| - 1] == s[|s| - 1];
    TrimTrimmed(s);
    TrimTrimmed(t);
    AtoiOfDecimal(n);
    AtoiOfSigned(n);
  }

  function QueryAt(cursor: string, limit: int): Option<Query> {
    var offset := if Trim(cursor) == "" then Some(0) else DecodeOffset(Trim(cursor));
    if offset.None? then None else Some(Query(offset.value, NormalizeLimit(limit)))
  }

  /** parseListQuery on the first non-blank cursor and limit. */
  function ParseQuery(cursor: string, limit: string): Option<Query> {
    if ParseLimit(limit).None? then None else QueryAt(cursor, ParseLimit(limit).value)
  }

  // ---------------------------------------------------------------- pages

  /** The rows OFFSET and LIMIT select from an ordered list. */
  function Fetch<T>(list: seq<T>, offset: nat, count: nat): seq<T> {
    if offset >= |list| then []
    else if offset + count >= |list| then list[offset..]
    else list[offset..offset + count]
  }

  /** A page asks for one row more than its limit; the extra row only says that there is a
      next page. */
  function Page<T>(list: seq<T>, q: Query): (seq<T>, Option<string>) {
    var rows := Fetch(list, q.offset, q.limit + 1);
    if |rows| <= q.limit then (rows, None)
    else (rows[..q.limit], Some(EncodeOffset(q.offset + q.limit)))
  }

  /** What a page shows and whether there is another one. */
  lemma PageIs<T>(list: seq<T>, q: Query)
    requires q.offset <= |list| <= MAX_INT
    ensures
      var (items, next) := Page(list, q);
      && items == list[q.offset..if q.offset + q.limit < |list| then q.offset + q.limit else |list|]
      && (next.Some? <==> q.offset + q.limit < |list|)
      && (next.Some? ==> DecodeOffset(next.value) == Some(q.offset + q.limit))
  {
    if q.offset + q.limit < |list| {
      DecodeUndoesEncode(q.offset + q.limit);
      var rows := Fetch(list, q.offset, q.limit + 1);
      assert rows[..q.limit] == list[q.offset..q.offset + q.limit];
    }
  }

  lemma NextIsFurther<T>(list: seq<T>, q: Query, limit: int)
    requires q.offset + q.limit < |list| <= MAX_INT && q.limit == NormalizeLimit(limit)
    ensures Page(list, q).1.Some?
    ensures QueryAt(Page(list, q).1.value, limit) == Some(Query(q.offset + q.limit, q.limit))
  {
    PageIs(list, q);
    CursorIsTrimmed(q.offset + q.limit);
  }

  /** Following next_cursor from a page query on, None if a request is refused: it ends, and
      yields the rest of the list. */
  function WalkFrom<T>(list: seq<T>, q: Query, limit: int): (r: Option<seq<T>>)
    requires |list| <= MAX_INT && q.limit == NormalizeLimit(limit)
    ensures q.offset <= |list| ==> r == Some(list[q.offset..])
    decreases if q.offset <= |list| then |list| - q.offset else 0
  {
    PageIsSlice(list, q);
    var (items, next) := Page(list, q);
    if next.None? then Some(items)
    else
      NextIsFurther(list, q, limit);
      var nextQuery := QueryAt(next.value, limit);
      if nextQuery.None? then None
      else
        var rest := WalkFrom(list, nextQuery.value, limit);
        SliceJoin(list, q.offset, q.offset + q.limit);
        if rest.None? then None else Some(items + rest.value)
  }

  lemma PageIsSlice<T>(list: seq<T>, q: Query)
    requires |list| <= MAX_INT
    ensures Page(list, q).1.Some? ==> q.offset + q.limit < |list|
    ensures q.offset <= |list| ==>
              Page(list, q).0 == list[q.offset..if Page(list, q).1.Some? then q.offset + q.limit else |list|]
  {
    if q.offset <= |list| {
      PageIs(list, q);
    }
  }

  lemma SliceJoin<T>(list: seq<T>, a: nat, b: nat)
    requires a <= b <= |list|
    ensures list[a..b] + list[b..] == list[a..]
  {
  }

  /** A client's requests from the first one on. */
  function Walk<T>(list: seq<T>, cursor: string, limit: string): Option<seq<T>>
    requires |list| <= MAX_INT
  {
    var q := ParseQuery(cursor, limit);
    if q.None? then None else WalkFrom(list, q.value, ParseLimit(limit).value)
  }

  /** Following next_cursor from the start ends and yields every item of the list exactly once
      and in order, whatever limit was asked for. */
  lemma WalkYieldsAll<T>(list: seq<T>, limit: string)
    requires |list| <= MAX_INT && ParseLimit(limit).Some?
    ensures Walk(list, "", limit) == Some(list)
  {
    var want := ParseLimit(limit).value;
    assert Trim("") == "";
    assert QueryAt("", want) == Some(Query(0, NormalizeLimit(want)));
    assert WalkFrom(list, Query(0, NormalizeLimit(want)), want) == Some(list[0..]);
    assert list[0..] == list;
  }
}
