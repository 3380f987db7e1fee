/** Decimal numbers and C strings as the SOTP text protocol prints and reads them. */
module SotpNumbers {

  predicate IsDigit(c: char) {
    '0' <= c <= '9'
  }

  function DigitValue(c: char): nat
    requires IsDigit(c)
  {
    c as int - '0' as int
  }

  function Digit(d: nat): (c: char)
    requires d < 10
    ensures IsDigit(c) && DigitValue(c) == d
  {
    ('0' as int + d) as char
  }

  /** `%lu` */
  function Dec(n: nat): (s: string)
    ensures s != "" && forall c :: c in s ==> IsDigit(c)
  {
    if n < 10 then [Digit(n)] else Dec(n / 10) + [Digit(n % 10)]
  }

  /** `%d` and `%lld` */
  function DecInt(n: int): (s: string)
    ensures s != "" && forall c :: c in s ==> IsDigit(c) || c == '-'
  {
    if n < 0 then "-" + Dec(-n) else Dec(n)
  }

  function Digits(s: string, acc: nat): nat
    decreases |s|
  {
    if s == "" || !IsDigit(s[0]) then acc else Digits(s[1..], acc * 10 + DigitValue(s[0]))
  }

  predicate IsSpace(c: char) {
    c == ' ' || 9 <= c as int <= 13
  }

  function SkipSpace(s: string): string {
    if s != "" && IsSpace(s[0]) then SkipSpace(s[1..]) else s
  }

  /** `atoi`; a number that does not fit its type has no meaning here. */
  function Atoi(s: string): int {
    var t := SkipSpace(s);
    if t != "" && t[0] == '-' then -(Digits(t[1..], 0) as int)
    else if t != "" && t[0] == '+' then Digits(t[1..], 0)
    else Digits(t, 0)
  }

  lemma {:induction false} DigitsOn(s: string, d: char, acc: nat)
    requires (forall c :: c in s ==> IsDigit(c)) && IsDigit(d)
    ensures Digits(s + [d], acc) == Digits(s, acc) * 10 + DigitValue(d)
    decreases |s|
  {
    if s == "" {
      assert s + [d] == [d];
      assert [d][1..] == "";
    } else {
      assert (s + [d])[1..] == s[1..] + [d];
      assert s[0] in s;
      DigitsOn(s[1..], d, acc * 10 + DigitValue(s[0]));
    }
  }

  lemma {:induction false} DigitsOfDec(n: nat)
    ensures Digits(Dec(n), 0) == n
  {
    if n < 10 {
      assert [Digit(n)][1..] == "";
    } else {
      DigitsOfDec(n / 10);
      DigitsOn(Dec(n / 10), Digit(n % 10), 0);
    }
  }

  lemma DigitIsPlain(c: char)
    requires IsDigit(c)
    ensures !IsSpace(c) && c != '-' && c != '+'
  {
  }

  /** What is printed is read again, and only negative numbers have a sign. */
  lemma AtoiOfDec(n: int)
    ensures Atoi(DecInt(n)) == n
    ensures '-' in DecInt(n) <==> n < 0
  {
    if n < 0 {
      DigitsOfDec(-n);
      assert DecInt(n)[1..] == Dec(-n);
    } else {
      DigitsOfDec(n);
      assert Dec(n)[0] in Dec(n);
      DigitIsPlain(Dec(n)[0]);
    }
  }

  /** Blanks and the characters 9 to 13 in front are passed over; one sign may follow, and then only digits. */
  lemma ReadFrom(c: char, s: string, n: nat)
    ensures c == ' ' || 9 <= c as int <= 13 ==> Atoi([c] + s) == Atoi(s)
    ensures c !in " +-" && !('0' <= c <= '9') && !(9 <= c as int <= 13) ==> Atoi([c] + s) == 0
    ensures Atoi("+" + Dec(n)) == n && -Atoi("-" + Dec(n)) == n
  {
    assert ([c] + s)[1..] == s;
    DigitsOfDec(n);
    assert ("+" + Dec(n))[1..] == Dec(n) && ("-" + Dec(n))[1..] == Dec(n);
  }

  /** Reading ends with the first character behind the digits. */
  lemma {:induction false} ReadTo(n: nat, c: char, s: string)
    requires !('0' <= c <= '9')
    ensures Atoi(Dec(n) + [c] + s) == n
  {
    DigitsEnd(Dec(n), c, s, 0);
    DigitsOfDec(n);
    assert Dec(n)[0] in Dec(n);
    DigitIsPlain(Dec(n)[0]);
    assert (Dec(n) + [c] + s)[0] == Dec(n)[0];
  }

  lemma {:induction false} DigitsEnd(t: string, c: char, s: string, acc: nat)
    requires (forall d :: d in t ==> IsDigit(d)) && !IsDigit(c)
    ensures Digits(t + [c] + s, acc) == Digits(t, acc)
    decreases |t|
  {
    if t == "" {
      assert t + [c] + s == [c] + s;
    } else {
      assert t[0] in t;
      assert (t + [c] + s)[1..] == t[1..] + [c] + s;
      DigitsEnd(t[1..], c, s, acc * 10 + DigitValue(t[0]));
    }
  }

  // ---- Identifiers of 64 bits ----

  const MAX_INT64: int := 0x7FFF_FFFF_FFFF_FFFF
  const TWO64: int := 0x1_0000_0000_0000_0000

  /** `cgc_atoi64`: out of range it gives the nearest bound. */
  function Atoi64(s: string): int {
    var n := Atoi(s);
    if n > MAX_INT64 then MAX_INT64 else if n < -MAX_INT64 - 1 then -MAX_INT64 - 1 else n
  }

  /** Read as signed, kept as unsigned. */
  function ReadId(s: string): (n: nat)
    ensures n < TWO64
  {
    var n := Atoi64(s);
    if n < 0 then n + TWO64 else n
  }

  /** A printed identifier comes back exactly if it is below 2^63; the others become 2^63 - 1. */
  lemma IdRoundTrip(n: nat)
    ensures ReadId(Dec(n)) == if n < 0x8000_0000_0000_0000 then n else 0x7FFF_FFFF_FFFF_FFFF
  {
    AtoiOfDec(n);
  }

  /** A negative one comes back as what it is in 64 bits without a sign, and 2^63 if it is too small. */
  lemma NegativeId(n: nat)
    requires n > 0
    ensures ReadId("-" + Dec(n)) == if n <= 0x8000_0000_0000_0000 then 0x1_0000_0000_0000_0000 - n else 0x8000_0000_0000_0000
  {
    AtoiOfDec(0 - n);
  }

  /** A printed number of 64 bits comes back, any other as the nearest bound. */
  lemma BigRoundTrip(n: int)
    ensures -0x8000_0000_0000_0000 <= n <= 0x7FFF_FFFF_FFFF_FFFF ==> Atoi64(DecInt(n)) == n
    ensures n < -0x8000_0000_0000_0000 ==> Atoi64(DecInt(n)) == -0x8000_0000_0000_0000
    ensures n > 0x7FFF_FFFF_FFFF_FFFF ==> Atoi64(DecInt(n)) == 0x7FFF_FFFF_FFFF_FFFF
  {
    AtoiOfDec(n);
  }

  // ---- Searching ----

  predicate HasAt(s: string, pat: string, k: int) {
    0 <= k && k + |pat| <= |s| && s[k..k + |pat|] == pat
  }

  /** `find`: the first occurrence from `from` on, -1 if there is none. */
  function FindFrom(s: string, pat: string, from: nat): (k: int)
    ensures -1 <= k
    ensures k >= 0 ==> from <= k && HasAt(s, pat, k) && forall m :: from <= m < k ==> !HasAt(s, pat, m)
    ensures k < 0 ==> forall m :: from <= m ==> !HasAt(s, pat, m)
    decreases |s| - from
  {
    if from + |pat| > |s| then -1
    else if s[from..from + |pat|] == pat then from
    else FindFrom(s, pat, from + 1)
  }

  predicate Avoids(s: string, pat: string) {
    FindFrom(s, pat, 0) < 0
  }

  lemma MatchInside(before: string, name: string, pat: string, after: string, m: nat)
    requires |before| <= m && m + |pat| <= |before| + |name| && HasAt(before + name + pat + after, pat, m)
    ensures HasAt(name, pat, m - |before|)
  {
    var s := before + name + pat + after;
    assert name[m - |before|..m - |before| + |pat|] == s[m..m + |pat|];
  }

  lemma MatchAcross(before: string, name: string, pat: string, after: string, m: nat)
    requires m < |before| + |name| < m + |pat| && HasAt(before + name + pat + after, pat, m)
    ensures pat[0] in pat[1..]
  {
    var s, n := before + name + pat + after, |before| + |name|;
    assert s[m..m + |pat|][n - m] == s[n] == pat[0];
    assert pat[1..][n - m - 1] == pat[n - m];
  }

  /** A marker whose first character does not come again in it is found behind a text that avoids it. */
  lemma FindMarker(before: string, name: string, pat: string, after: string)
    requires pat != "" && pat[0] !in pat[1..] && Avoids(name, pat)
    ensures FindFrom(before + name + pat + after, pat, |before|) == |before| + |name|
  {
    var s, n := before + name + pat + after, |before| + |name|;
    assert HasAt(s, pat, n);
    forall m | |before| <= m < n ensures !HasAt(s, pat, m) {
      if HasAt(s, pat, m) {
        if m + |pat| <= n {
          MatchInside(before, name, pat, after, m);
        } else {
          MatchAcross(before, name, pat, after, m);
        }
      }
    }
  }
}
