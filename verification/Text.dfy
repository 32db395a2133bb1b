/** ASCII strings the way the Go standard library treats them. */
module Text {

  predicate IsSpace(c: char) { c == ' ' || '\t' <= c <= '\r' }

  function TrimLeft(s: string): string { if s != "" && IsSpace(s[0]) then TrimLeft(s[1..]) else s }

  function TrimRight(s: string): string {
    if s != "" && IsSpace(s[|s| - 1]) then TrimRight(s[..|s| - 1]) else s
  }

  function TrimSpace(s: string): string { TrimRight(TrimLeft(s)) }

  predicate Blank(s: string) { TrimSpace(s) == "" }

  predicate AllSpaces(s: string) { forall c :: c in s ==> IsSpace(c) }

  /** t is s without the spaces around it. */
  ghost predicate Trims(s: string, t: string) {
    && (t != "" ==> !IsSpace(t[0]) && !IsSpace(t[|t| - 1]))
    && exists a, b :: AllSpaces(a) && AllSpaces(b) && s == a + t + b
  }

  lemma {:induction false} LeftTrimmed(a: string, t: string)
    requires AllSpaces(a) && (t != "" ==> !IsSpace(t[0]))
    ensures TrimLeft(a + t) == t
  {
    if a == "" {
      assert a + t == t;
    } else {
      assert (a + t)[1..] == a[1..] + t;
      LeftTrimmed(a[1..], t);
    }
  }

  lemma {:induction false} RightTrimmed(t: string, b: string)
    requires AllSpaces(b) && (t != "" ==> !IsSpace(t[|t| - 1]))
    ensures TrimRight(t + b) == t
    decreases |b|
  {
    if b == "" {
      assert t + b == t;
    } else {
      assert (t + b)[..|t + b| - 1] == t + b[..|b| - 1];
      RightTrimmed(t, b[..|b| - 1]);
    }
  }

  lemma {:induction false} TrimsLeft(s: string) returns (a: string)
    ensures AllSpaces(a) && s == a + TrimLeft(s) && (TrimLeft(s) != "" ==> !IsSpace(TrimLeft(s)[0]))
  {
    a := "";
    if s != "" && IsSpace(s[0]) {
      a := TrimsLeft(s[1..]);
      a := [s[0]] + a;
    }
  }

  lemma {:induction false} TrimsRight(s: string) returns (b: string)
    ensures AllSpaces(b) && s == TrimRight(s) + b && (TrimRight(s) != "" ==> !IsSpace(TrimRight(s)[|TrimRight(s)| - 1]))
    decreases |s|
  {
    b := "";
    if s != "" && IsSpace(s[|s| - 1]) {
      b := TrimsRight(s[..|s| - 1]);
      b := b + [s[|s| - 1]];
    }
  }

  lemma SpaceIsTrimmed(s: string)
    ensures Trims(s, TrimSpace(s))
  {
    var a := TrimsLeft(s);
    var b := TrimsRight(TrimLeft(s));
    assert s == a + TrimSpace(s) + b;
  }

  lemma TrimmedAgain(a: string, t: string, b: string)
    requires AllSpaces(a) && AllSpaces(b) && (t != "" ==> !IsSpace(t[0]) && !IsSpace(t[|t| - 1]))
    ensures TrimSpace(a + t + b) == t
  {
    if t == "" {
      assert (a + t + b) + "" == a + t + b;
      LeftTrimmed(a + t + b, "");
    } else {
      assert a + t + b == a + (t + b);
      LeftTrimmed(a, t + b);
      RightTrimmed(t, b);
    }
  }

  /** Trimming is just that, and there is only one way to do it. */
  lemma TrimSpaceTrims(s: string, t: string)
    ensures TrimSpace(s) == t <==> Trims(s, t)
  {
    SpaceIsTrimmed(s);
    if Trims(s, t) {
      var a, b :| AllSpaces(a) && AllSpaces(b) && s == a + t + b;
      TrimmedAgain(a, t, b);
    }
  }

  lemma NothingToTrim(s: string)
    requires s != "" && !IsSpace(s[0]) && !IsSpace(s[|s| - 1])
    ensures TrimSpace(s) == s
  {
  }

  function LowerChar(c: char): char { if 'A' <= c <= 'Z' then c - 'A' + 'a' else c }

  function UpperChar(c: char): char { if 'a' <= c <= 'z' then c - 'a' + 'A' else c }

  function Lower(s: string): string { seq(|s|, i requires 0 <= i < |s| => LowerChar(s[i])) }

  /** t is s with its capital letters, and only those, made small. */
  predicate Folds(s: string, t: string) {
    |s| == |t| && forall i :: 0 <= i < |s| ==>
      if 'A' <= s[i] <= 'Z' then t[i] as int == s[i] as int + 32 else t[i] == s[i]
  }

  lemma LowerFolds(s: string, t: string)
    ensures Lower(s) == t <==> Folds(s, t)
  {
    assert |Lower(s)| == |s| && forall i :: 0 <= i < |s| ==> Lower(s)[i] == LowerChar(s[i]);
    if Folds(s, t) {
      forall i | 0 <= i < |s| ensures Lower(s)[i] == t[i] {
      }
    }
  }

  function Upper(s: string): string { seq(|s|, i requires 0 <= i < |s| => UpperChar(s[i])) }

  /** Go's `a < b` on strings: byte by byte, a proper prefix first. */
  predicate Before(a: string, b: string) {
    b != "" && (a == "" || a[0] < b[0] || (a[0] == b[0] && Before(a[1..], b[1..])))
  }

  lemma {:induction false} BeforeIsTotal(a: string, b: string)
    ensures a == b || Before(a, b) || Before(b, a)
  {
    if a != "" && b != "" && a[0] == b[0] {
      BeforeIsTotal(a[1..], b[1..]);
      assert a == [a[0]] + a[1..] && b == [b[0]] + b[1..];
    }
  }

  lemma {:induction false} BeforeIsAsymmetric(a: string, b: string)
    requires Before(a, b)
    ensures a != b && !Before(b, a)
  {
    if a != "" && a[0] == b[0] { BeforeIsAsymmetric(a[1..], b[1..]); }
  }

  lemma {:induction false} BeforeIsTransitive(a: string, b: string, c: string)
    requires Before(a, b) && Before(b, c)
    ensures Before(a, c)
  {
    if a != "" && a[0] == b[0] == c[0] { BeforeIsTransitive(a[1..], b[1..], c[1..]); }
  }

  function Digit(d: nat): char
    requires d < 10
  {
    '0' + d as char
  }

  predicate IsDigit(c: char) { '0' <= c <= '9' }

  predicate AllDigits(s: string) { forall c :: c in s ==> IsDigit(c) }

  /** strconv.FormatInt in base 10. */
  function Decimal(n: nat): (s: string)
    ensures s != "" && AllDigits(s)
  {
    if n < 10 then [Digit(n)] else Decimal(n / 10) + [Digit(n % 10)]
  }

  function FormatInt(n: int): string { if n < 0 then "-" + Decimal(-n) else Decimal(n) }

  function Value(digits: string): nat
    requires AllDigits(digits)
  {
    if digits == "" then 0
    else
      assert digits[|digits| - 1] in digits;
      Value(digits[..|digits| - 1]) * 10 + (digits[|digits| - 1] as int - '0' as int)
  }

  const INT64_LIMIT := 0x8000_0000_0000_0000

  predicate IsInt64(n: int) { -INT64_LIMIT <= n < INT64_LIMIT }

  /** strconv.ParseInt in base 10 and 64 bits, with every error read as 0. */
  function ParseInt64(s: string): int {
    var signed := s != "" && (s[0] == '-' || s[0] == '+');
    var digits := if signed then s[1..] else s;
    if digits == "" || !AllDigits(digits) then 0
    else
      var size: int := Value(digits);
      var n := if signed && s[0] == '-' then -size else size;
      if IsInt64(n) then n else 0
  }

  lemma {:induction false} ValueOfDecimal(n: nat)
    ensures Value(Decimal(n)) == n
  {
    if n >= 10 {
      ValueOfDecimal(n / 10);
      assert Decimal(n)[..|Decimal(n)| - 1] == Decimal(n / 10);
    }
  }

  /** Digits, with or without a sign, read as the number they are if it fits in 64 bits. */
  lemma DigitsAreRead(digits: string)
    requires digits != "" && AllDigits(digits)
    ensures var n: int := Value(digits);
            && ParseInt64(digits) == ParseInt64("+" + digits) == (if IsInt64(n) then n else 0)
            && ParseInt64("-" + digits) == if IsInt64(-n) then -n else 0
  {
    assert digits[0] in digits;
    assert ("+" + digits)[1..] == digits && ("-" + digits)[1..] == digits;
  }

  /** Anything else reads as 0. */
  lemma NothingElseIsRead(s: string)
    requires forall digits :: digits != "" && AllDigits(digits) ==>
               s != digits && s != "+" + digits && s != "-" + digits
    ensures ParseInt64(s) == 0
  {
    if s != "" && (s[0] == '+' || s[0] == '-') { assert s == [s[0]] + s[1..]; }
  }

  /** Numbers survive being written to a label and read back exactly when they fit in 64 bits. */
  lemma ParseFormatted(n: int)
    ensures ParseInt64(FormatInt(n)) == if IsInt64(n) then n else 0
  {
    ValueOfDecimal(if n < 0 then -n else n);
    if n < 0 {
      assert FormatInt(n)[1..] == Decimal(-n);
    } else {
      assert Decimal(n)[0] in Decimal(n);
    }
  }

  lemma DecimalIsInjective(m: nat, n: nat)
    requires Decimal(m) == Decimal(n)
    ensures m == n
  {
    ValueOfDecimal(m);
    ValueOfDecimal(n);
  }

  function Power10(k: nat): nat { if k == 0 then 1 else 10 * Power10(k - 1) }

  lemma {:induction false} DecimalLength(n: nat, k: nat)
    requires n < Power10(k) && k > 0
    ensures |Decimal(n)| <= k
  {
    if n >= 10 { DecimalLength(n / 10, k - 1); }
  }
}
