/**
 Strings as the service uses them.  A character stands for one byte of a Go string.
 */
module Text {

  datatype Option<+T> = None | Some(value: T)

  datatype Result<+T> = Ok(value: T) | Err(message: string)

  predicate IsSpace(c: char) {
    c == ' ' || c == '\t' || c == '\n' || c == '\r' || c == '\U{00000B}' || c == '\U{00000C}'
  }

  function TrimLeft(s: string): string {
    if s != "" && IsSpace(s[0]) then TrimLeft(s[1..]) else s
  }

  function TrimRight(s: string): string {
    if s != "" && IsSpace(s[|s| - 1]) then TrimRight(s[..|s| - 1]) else s
  }

  /** strings.TrimSpace. */
  function Trim(s: string): string {
    TrimRight(TrimLeft(s))
  }

  lemma TrimRightKeepsFirst(s: string)
    requires s != "" && !IsSpace(s[0])
    ensures TrimRight(s) != "" && TrimRight(s)[0] == s[0]
  {
  }

  lemma TrimmedEnds(s: string)
    ensures Trim(s) != "" ==> !IsSpace(Trim(s)[0]) && !IsSpace(Trim(s)[|Trim(s)| - 1])
  {
    var l := TrimLeft(s);
    LeftEnd(s);
    RightEnd(l);
    if l != "" {
      TrimRightKeepsFirst(l);
    }
  }

  lemma LeftEnd(s: string)
    ensures TrimLeft(s) != "" ==> !IsSpace(TrimLeft(s)[0])
  {
  }

  lemma RightEnd(s: string)
    ensures TrimRight(s) != "" ==> !IsSpace(TrimRight(s)[|TrimRight(s)| - 1])
  {
  }

  /** What trimming cuts off on either side is space; with TrimmedEnds that is all of it. */
  lemma TrimCuts(s: string) returns (i: nat, j: nat)
    ensures i <= j <= |s| && Trim(s) == s[i..j]
    ensures forall k | 0 <= k < i || j <= k < |s| :: IsSpace(s[k])
  {
    i := LeftCut(s);
    j := RightCut(TrimLeft(s));
    j := i + j;
  }

  lemma {:induction false} LeftCut(s: string) returns (i: nat)
    ensures i <= |s| && TrimLeft(s) == s[i..] && forall k | 0 <= k < i :: IsSpace(s[k])
  {
    i := 0;
    if s != "" && IsSpace(s[0]) {
      i := LeftCut(s[1..]);
      assert forall k | 1 <= k < i + 1 :: s[k] == s[1..][k - 1];
      i := i + 1;
    }
  }

  lemma {:induction false} RightCut(s: string) returns (j: nat)
    ensures j <= |s| && TrimRight(s) == s[..j] && forall k | j <= k < |s| :: IsSpace(s[k])
  {
    j := |s|;
    if s != "" && IsSpace(s[|s| - 1]) {
      j := RightCut(s[..|s| - 1]);
    }
  }

  lemma TrimTrimmed(s: string)
    requires s != "" ==> !IsSpace(s[0]) && !IsSpace(s[|s| - 1])
    ensures Trim(s) == s
  {
  }

  lemma TrimTwice(s: string)
    ensures Trim(Trim(s)) == Trim(s)
  {
    TrimmedEnds(s);
    TrimTrimmed(Trim(s));
  }

  function LowerChar(c: char): char {
    if 'A' <= c <= 'Z' then c - 'A' + 'a' else c
  }

  /** strings.ToLower. */
  function Lower(s: string): (r: string)
    ensures |r| == |s| && forall i | 0 <= i < |s| :: r[i] == LowerChar(s[i])
  {
    seq(|s|, i requires 0 <= i < |s| => LowerChar(s[i]))
  }

  function UpperChar(c: char): char {
    if 'a' <= c <= 'z' then c - 'a' + 'A' else c
  }

  /** strings.ToUpper. */
  function Upper(s: string): string {
    seq(|s|, i requires 0 <= i < |s| => UpperChar(s[i]))
  }

  /** strings.EqualFold. */
  predicate EqualFold(a: string, b: string) {
    Lower(a) == Lower(b)
  }

  /** Texts are the same in upper case if and only if they are in lower case. */
  lemma CasesAgree(a: string, b: string)
    ensures Upper(a) == Upper(b) <==> EqualFold(a, b)
  {
    if Upper(a) == Upper(b) {
      assert |a| == |Upper(a)| == |Upper(b)| == |b|;
      forall i | 0 <= i < |a| ensures Lower(a)[i] == Lower(b)[i] {
        assert Upper(a)[i] == Upper(b)[i];
        SameUpper(a[i], b[i]);
      }
    }
    if Lower(a) == Lower(b) {
      assert |a| == |Lower(a)| == |Lower(b)| == |b|;
      forall i | 0 <= i < |a| ensures Upper(a)[i] == Upper(b)[i] {
        assert Lower(a)[i] == Lower(b)[i];
        SameUpper(a[i], b[i]);
      }
    }
  }

  lemma SameUpper(a: char, b: char)
    ensures UpperChar(a) == UpperChar(b) <==> LowerChar(a) == LowerChar(b)
  {
  }

  // ---------------------------------------------------------------- joining

  /** strings.Join with a one-character separator. */
  function Join(parts: seq<string>, sep: char): string {
    if parts == [] then ""
    else if |parts| == 1 then parts[0]
    else parts[0] + [sep] + Join(parts[1..], sep)
  }

  predicate Free(s: string, c: char) {
    c !in s
  }

  predicate AllFree(parts: seq<string>, c: char) {
    forall p | p in parts :: Free(p, c)
  }

  /** Nothing, or text that continues after a separator. */
  predicate Tail(s: string, sep: char) {
    s == "" || s[0] == sep
  }

  /** The text before the first separator. */
  function FirstPiece(s: string, sep: char): string {
    if s == "" || s[0] == sep then "" else [s[0]] + FirstPiece(s[1..], sep)
  }

  lemma FirstPieceOf(a: string, r: string, sep: char)
    requires Free(a, sep) && Tail(r, sep)
    ensures FirstPiece(a + r, sep) == a
  {
    if a == "" {
      assert a + r == r;
    } else {
      assert (a + r)[1..] == a[1..] + r;
      FirstPieceOf(a[1..], r, sep);
    }
  }

  lemma FirstPieceUnique(a: string, r: string, b: string, s: string, sep: char)
    requires Free(a, sep) && Free(b, sep) && Tail(r, sep) && Tail(s, sep) && a + r == b + s
    ensures a == b && r == s
  {
    FirstPieceOf(a, r, sep);
    FirstPieceOf(b, s, sep);
    assert r == (a + r)[|a|..] && s == (b + s)[|b|..];
  }

  /** Separator-free pieces can be read back from a joined text, whatever follows. */
  lemma {:induction false} JoinUnique(f: seq<string>, r: string, g: seq<string>, s: string, sep: char)
    requires |f| == |g| > 0 && AllFree(f, sep) && AllFree(g, sep) && Tail(r, sep) && Tail(s, sep)
    requires Join(f, sep) + r == Join(g, sep) + s
    ensures f == g && r == s
  {
    if |f| == 1 {
      FirstPieceUnique(f[0], r, g[0], s, sep);
    } else {
      var fr := [sep] + Join(f[1..], sep) + r;
      var gs := [sep] + Join(g[1..], sep) + s;
      assert Join(f, sep) + r == f[0] + fr;
      assert Join(g, sep) + s == g[0] + gs;
      FirstPieceUnique(f[0], fr, g[0], gs, sep);
      assert fr[1..] == Join(f[1..], sep) + r;
      assert gs[1..] == Join(g[1..], sep) + s;
      JoinUnique(f[1..], r, g[1..], s, sep);
      assert f == [f[0]] + f[1..] && g == [g[0]] + g[1..];
    }
  }

  /** Lists of pieces of any two lengths are told apart by their joined text. */
  lemma {:induction false} JoinInjective(f: seq<string>, g: seq<string>, sep: char)
    requires |f| > 0 && |g| > 0 && AllFree(f, sep) && AllFree(g, sep)
    requires Join(f, sep) == Join(g, sep)
    ensures f == g
  {
    var fr := if |f| == 1 then "" else [sep] + Join(f[1..], sep);
    var gr := if |g| == 1 then "" else [sep] + Join(g[1..], sep);
    assert Join(f, sep) == f[0] + fr && Join(g, sep) == g[0] + gr;
    FirstPieceUnique(f[0], fr, g[0], gr, sep);
    if |f| > 1 {
      assert fr[1..] == Join(f[1..], sep);
      assert gr[1..] == Join(g[1..], sep);
      JoinInjective(f[1..], g[1..], sep);
      assert f == [f[0]] + f[1..] && g == [g[0]] + g[1..];
    }
  }

  /** The text after the last separator. */
  function AfterLast(s: string, c: char): string {
    if s == "" then ""
    else if s[|s| - 1] == c then ""
    else AfterLast(s[..|s| - 1], c) + [s[|s| - 1]]
  }

  lemma AfterLastOf(a: string, d: string, c: char)
    requires Free(d, c)
    ensures AfterLast(a + [c] + d, c) == d
  {
    var t := a + [c] + d;
    if d == "" {
      assert t[|t| - 1] == c;
    } else {
      assert d[|d| - 1] in d;
      assert t[..|t| - 1] == a + [c] + d[..|d| - 1];
      AfterLastOf(a, d[..|d| - 1], c);
      assert d == d[..|d| - 1] + [d[|d| - 1]];
    }
  }

  // ---------------------------------------------------------------- bytes

  /** Every character stands for a byte. */
  predicate IsBytes(s: string) {
    forall i | 0 <= i < |s| :: s[i] as nat < 256
  }

  // ---------------------------------------------------------------- decimal numbers

  function Digit(d: nat): char
    requires d < 10
  {
    '0' + d as char
  }

  predicate IsDigit(c: char) {
    '0' <= c <= '9'
  }

  /** strconv.FormatInt in base 10 of a non-negative number. */
  function Decimal(n: nat): (s: string)
    ensures s != "" && forall c | c in s :: IsDigit(c)
  {
    if n < 10 then [Digit(n)] else Decimal(n / 10) + [Digit(n % 10)]
  }

  /** The number a run of digits stands for. */
  function DigitsValue(s: string): nat
    requires forall c | c in s :: IsDigit(c)
  {
    if s == "" then 0
    else
      assert IsDigit(s[|s| - 1]);
      DigitsValue(s[..|s| - 1]) * 10 + (s[|s| - 1] - '0') as nat
  }

  lemma {:induction false} DecimalValue(n: nat)
    ensures DigitsValue(Decimal(n)) == n
  {
    var s := Decimal(n);
    if n >= 10 {
      DecimalValue(n / 10);
      assert s[..|s| - 1] == Decimal(n / 10);
    } else {
      assert s[..0] == "";
    }
  }

  lemma DecimalInjective(m: nat, n: nat)
    requires Decimal(m) == Decimal(n)
    ensures m == n
  {
    DecimalValue(m);
    DecimalValue(n);
  }

  // ---------------------------------------------------------------- ordering

  /** Byte order on strings. */
  predicate Less(a: string, b: string) {
    b != "" && (a == "" || a[0] < b[0] || (a[0] == b[0] && Less(a[1..], b[1..])))
  }

  lemma LessTotal(a: string, b: string)
    ensures a == b || Less(a, b) || Less(b, a)
  {
    if a != "" && b != "" && a[0] == b[0] {
      LessTotal(a[1..], b[1..]);
      assert a == [a[0]] + a[1..] && b == [b[0]] + b[1..];
    }
  }

  lemma LessTransitive(a: string, b: string, c: string)
    requires Less(a, b) && Less(b, c)
    ensures Less(a, c)
  {
  }

  lemma LessIrreflexive(a: string)
    ensures !Less(a, a)
  {
  }

  predicate LessEq(a: string, b: string) {
    a == b || Less(a, b)
  }

  predicate Sorted(s: seq<string>) {
    forall i, j | 0 <= i < j < |s| :: LessEq(s[i], s[j])
  }

  predicate StrictlySorted(s: seq<string>) {
    forall i, j | 0 <= i < j < |s| :: Less(s[i], s[j])
  }

  function Insert(x: string, s: seq<string>): (r: seq<string>)
    ensures multiset(r) == multiset(s) + multiset{x}
  {
    if s == [] then [x]
    else if LessEq(x, s[0]) then [x] + s
    else
      assert s == [s[0]] + s[1..];
      [s[0]] + Insert(x, s[1..])
  }

  /** sort.Strings. */
  function Sort(s: seq<string>): (r: seq<string>)
    ensures multiset(r) == multiset(s)
  {
    if s == [] then []
    else
      assert s == [s[0]] + s[1..];
      Insert(s[0], Sort(s[1..]))
  }

  lemma InsertSorted(x: string, s: seq<string>)
    requires Sorted(s)
    ensures Sorted(Insert(x, s))
  {
    if s != [] {
      var r := Insert(x, s);
      if LessEq(x, s[0]) {
        forall j | 0 < j < |r| ensures LessEq(x, r[j]) {
          assert r[j] == s[j - 1];
          if j > 1 && x != s[0] && s[0] != s[j - 1] {
            LessTransitive(x, s[0], s[j - 1]);
          }
        }
      } else {
        LessTotal(x, s[0]);
        InsertSorted(x, s[1..]);
        var t := Insert(x, s[1..]);
        forall j | 0 <= j < |t| ensures LessEq(s[0], t[j]) {
          assert t[j] in multiset(t);
          assert t[j] == x || t[j] in s[1..];
        }
        assert r == [s[0]] + t;
      }
    }
  }

  lemma SortSorted(s: seq<string>)
    ensures Sorted(Sort(s))
  {
    if s != [] {
      SortSorted(s[1..]);
      InsertSorted(s[0], Sort(s[1..]));
    }
  }

  lemma LeastFirst(a: seq<string>, b: seq<string>)
    requires Sorted(a) && Sorted(b) && multiset(a) == multiset(b) && a != [] && b != []
    ensures a[0] == b[0]
  {
    assert a[0] in multiset(b) && b[0] in multiset(a);
    if a[0] != b[0] {
      assert Less(a[0], b[0]) && Less(b[0], a[0]);
      LessTransitive(a[0], b[0], a[0]);
      LessIrreflexive(a[0]);
    }
  }

  lemma RestSorted(a: seq<string>)
    requires Sorted(a) && a != []
    ensures Sorted(a[1..]) && multiset(a[1..]) == multiset(a) - multiset{a[0]}
  {
    assert a == [a[0]] + a[1..];
  }

  lemma SameCount(a: seq<string>, b: seq<string>)
    requires multiset(a) == multiset(b)
    ensures |a| == |b|
  {
    assert |a| == |multiset(a)| == |multiset(b)| == |b|;
  }

  /** A sorted list is determined by its elements and how often they occur. */
  lemma {:induction false} SortedUnique(a: seq<string>, b: seq<string>)
    requires Sorted(a) && Sorted(b) && multiset(a) == multiset(b)
    ensures a == b
  {
    SameCount(a, b);
    if a != [] {
      LeastFirst(a, b);
      RestSorted(a);
      RestSorted(b);
      SortedUnique(a[1..], b[1..]);
      assert a == [a[0]] + a[1..] && b == [b[0]] + b[1..];
    }
  }

  /** Sorting forgets the order and nothing else. */
  lemma SortExactlyWhen(a: seq<string>, b: seq<string>)
    ensures Sort(a) == Sort(b) <==> multiset(a) == multiset(b)
  {
    SortSorted(a);
    SortSorted(b);
    if multiset(a) == multiset(b) {
      SortedUnique(Sort(a), Sort(b));
    }
  }

  /** A strictly sorted list is determined by its elements. */
  lemma {:induction false} StrictlySortedUnique(a: seq<string>, b: seq<string>)
    requires StrictlySorted(a) && StrictlySorted(b)
    requires forall x :: x in a <==> x in b
    ensures a == b
  {
    assert a != [] ==> a[0] in b;
    assert b != [] ==> b[0] in a;
    if a != [] {
      LessIrreflexive(a[0]);
      LessIrreflexive(b[0]);
      if a[0] != b[0] {
        assert Less(a[0], b[0]) && Less(b[0], a[0]);
        LessTransitive(a[0], b[0], a[0]);
      }
      forall x ensures x in a[1..] <==> x in b[1..] {
        TailMember(a, x);
        TailMember(b, x);
      }
      StrictlySortedUnique(a[1..], b[1..]);
      assert a == [a[0]] + a[1..] && b == [b[0]] + b[1..];
    }
  }

  lemma TailMember(a: seq<string>, x: string)
    requires a != [] && StrictlySorted(a)
    ensures x in a[1..] <==> x in a && x != a[0]
  {
    LessIrreflexive(a[0]);
    assert a == [a[0]] + a[1..];
    assert forall j | 0 <= j < |a[1..]| :: a[1..][j] == a[j + 1];
  }
}
