/** The scanning core of `CPpHttp`: the substring search `strstrl`, percent-coding (section 2.1 of
    RFC 3986) and the query string collector `GetPropertys`, on bytes. */
module PpHttp {
  import opened Wrappers
  import opened Integers

  type Text = seq<Byte>

  // ---- Substring search ----

  /** `strstrl` from source index `i` with `j` pattern bytes matched: on a mismatch inside the pattern it
      starts over at the same source byte and does not go back. */
  function Search(s: Text, p: Text, i: nat, j: nat): Option<nat>
    requires i <= |s| && j < |p| && j <= i
    decreases |s| - i, j
  {
    if i == |s| then None
    else if s[i] != p[j] then if j == 0 then Search(s, p, i + 1, 0) else Search(s, p, i, 0)
    else if j + 1 == |p| then Some(i - j)
    else Search(s, p, i + 1, j + 1)
  }

  /** The whole search; the pattern is not empty, for the source reads behind an empty one. */
  function Strstrl(s: Text, p: Text): Option<nat>
    requires p != []
  {
    if |p| > |s| then None else Search(s, p, 0, 0)
  }

  predicate OccursAt(s: Text, p: Text, k: int) {
    0 <= k && k + |p| <= |s| && s[k..k + |p|] == p
  }

  lemma {:induction false} SearchSound(s: Text, p: Text, i: nat, j: nat)
    requires i <= |s| && j < |p| && j <= i && s[i - j..i] == p[..j]
    ensures Search(s, p, i, j).Some? ==> OccursAt(s, p, Search(s, p, i, j).value) && i - j <= Search(s, p, i, j).value
    decreases |s| - i, j
  {
    if i < |s| {
      if s[i] != p[j] {
        SearchSound(s, p, if j == 0 then i + 1 else i, 0);
      } else {
        assert s[i - j..i + 1] == s[i - j..i] + [s[i]];
        assert p[..j + 1] == p[..j] + [p[j]];
        if j + 1 < |p| {
          SearchSound(s, p, i + 1, j + 1);
        }
      }
    }
  }

  /** What is found is an occurrence, for every pattern. */
  lemma NoFalseMatch(s: Text, p: Text)
    requires p != [] && Strstrl(s, p).Some?
    ensures OccursAt(s, p, Strstrl(s, p).value)
  {
    SearchSound(s, p, 0, 0);
  }

  /** `b` bytes both start and end the first `j` bytes of the pattern. */
  predicate Border(p: Text, j: int, b: int) {
    0 < b < j <= |p| && p[..b] == p[j - b..j]
  }

  /** Wherever the search can start over inside the pattern, nothing is lost: a border of what has matched
      would fail on the same byte. */
  ghost predicate Searchable(p: Text) {
    forall j, b :: 0 <= j < |p| && Border(p, j, b) ==> p[b] == p[j]
  }

  /** The leftmost occurrence. */
  ghost predicate IsFirst(s: Text, p: Text, found: Option<nat>) {
    match found
    case None => forall k :: !OccursAt(s, p, k)
    case Some(k) => OccursAt(s, p, k) && forall m :: m < k ==> !OccursAt(s, p, m)
  }

  lemma MismatchLosesNothing(s: Text, p: Text, i: nat, j: nat, k: int)
    requires Searchable(p) && i < |s| && j < |p| && j <= i && s[i - j..i] == p[..j] && s[i] != p[j]
    requires i - j <= k < i
    ensures !OccursAt(s, p, k)
  {
    if OccursAt(s, p, k) {
      var b := i - k;
      assert s[k..k + |p|][b] == s[i] == p[b];
      if k > i - j {
        assert s[k..k + |p|][..b] == s[k..i];
        assert s[i - j..i][j - b..] == s[k..i];
        assert p[..j][j - b..] == p[j - b..j];
        assert Border(p, j, b);
      }
    }
  }

  lemma FirstByte(s: Text, p: Text, k: int)
    requires p != [] && OccursAt(s, p, k)
    ensures s[k] == p[0]
  {
    assert s[k..k + |p|][0] == p[0];
  }

  lemma {:induction false} SearchFirst(s: Text, p: Text, i: nat, j: nat)
    requires Searchable(p) && i <= |s| && j < |p| && j <= i && s[i - j..i] == p[..j]
    requires forall k :: k < i - j ==> !OccursAt(s, p, k)
    ensures IsFirst(s, p, Search(s, p, i, j))
    decreases |s| - i, j
  {
    hide Searchable;
    if i < |s| {
      if s[i] != p[j] {
        forall k | i - j <= k < i ensures !OccursAt(s, p, k) {
          MismatchLosesNothing(s, p, i, j, k);
        }
        if j == 0 {
          forall k | k < i + 1 ensures !OccursAt(s, p, k) {
            if OccursAt(s, p, k) {
              FirstByte(s, p, k);
            }
          }
          SearchFirst(s, p, i + 1, 0);
        } else {
          SearchFirst(s, p, i, 0);
        }
      } else {
        assert s[i - j..i + 1] == s[i - j..i] + [s[i]];
        assert p[..j + 1] == p[..j] + [p[j]];
        if j + 1 < |p| {
          SearchFirst(s, p, i + 1, j + 1);
        }
      }
    }
  }

  lemma FindsFirst(s: Text, p: Text)
    requires p != [] && Searchable(p)
    ensures IsFirst(s, p, Strstrl(s, p))
  {
    if |p| <= |s| {
      SearchFirst(s, p, 0, 0);
    }
  }

  lemma {:induction false} SearchAlong(s: Text, p: Text, n: nat)
    requires n < |p| && n <= |s| && s[..n] == p[..n]
    ensures Search(s, p, 0, 0) == Search(s, p, n, n)
    decreases n
  {
    if n > 0 {
      assert s[..n][n - 1] == p[..n][n - 1];
      assert s[..n - 1] == s[..n][..n - 1] && p[..n - 1] == p[..n][..n - 1];
      SearchAlong(s, p, n - 1);
    }
  }

  lemma {:induction false} TooShort(s: Text, p: Text, i: nat, j: nat)
    requires i <= |s| && j < |p| && j <= i && |s| - i < |p| - j
    ensures Search(s, p, i, j).None?
    decreases |s| - i, j
  {
    if i < |s| {
      if s[i] != p[j] {
        TooShort(s, p, if j == 0 then i + 1 else i, 0);
      } else {
        TooShort(s, p, i + 1, j + 1);
      }
    }
  }

  /** A pattern that is not searchable is overlooked in the text its border makes. */
  lemma MissesOne(p: Text, j: nat, b: nat)
    requires j < |p| && Border(p, j, b) && p[b] != p[j]
    ensures var s := p[..j] + p[b..]; Strstrl(s, p) == None && OccursAt(s, p, j - b)
  {
    var s := p[..j] + p[b..];
    assert s[..j] == p[..j] && s[j] == p[b];
    SearchAlong(s, p, j);
    assert Search(s, p, j, j) == Search(s, p, j, 0);
    TooShort(s, p, j, 0);
    assert s[j - b..j - b + |p|] == p[j - b..j] + p[b..];
    assert p[..b] + p[b..] == p;
  }

  /** The search finds the leftmost occurrence in every text if and only if the pattern is searchable. */
  lemma FindsFirstExactly(p: Text)
    requires p != []
    ensures Searchable(p) <==> forall s :: IsFirst(s, p, Strstrl(s, p))
  {
    if Searchable(p) {
      forall s ensures IsFirst(s, p, Strstrl(s, p)) {
        FindsFirst(s, p);
      }
    } else {
      var j, b :| 0 <= j < |p| && Border(p, j, b) && p[b] != p[j];
      MissesOne(p, j, b);
      var s := p[..j] + p[b..];
      assert !IsFirst(s, p, Strstrl(s, p));
    }
  }

  /** The end of a header. */
  lemma HeaderEndSearchable()
    ensures Searchable([13, 10, 13, 10])
  {
    var p: Text := [13, 10, 13, 10];
    forall j, b | 0 <= j < |p| && Border(p, j, b) ensures p[b] == p[j] {
      assert p[..b][0] == p[j - b..j][0];
      assert p[j - b] == 13;
      assert j == 3 && b == 1;
    }
  }

  lemma BorderRepeatsFirst(p: Text, j: int, b: int)
    requires j < |p| && Border(p, j, b)
    ensures p[0] in p[1..]
  {
    assert p[..b][0] == p[j - b..j][0];
    assert p[1..][j - b - 1] == p[j - b];
  }

  /** A boundary line (section 5.1.1 of RFC 2046): any pattern whose first byte does not come again. */
  lemma BoundarySearchable(p: Text)
    requires p != [] && p[0] !in p[1..]
    ensures Searchable(p)
  {
    if j, b :| 0 <= j < |p| && Border(p, j, b) && p[b] != p[j] {
      BorderRepeatsFirst(p, j, b);
    }
  }

  /** The loop over the two indices; the result is the index, if any. */
  method SearchBuffer(sourceBuffer: Text, findBuffer: Text) returns (found: Option<nat>)
    requires findBuffer != []
    ensures found == Strstrl(sourceBuffer, findBuffer)
  {
    if |findBuffer| > |sourceBuffer| { return None; }
    var sourceIndex, findIndex := 0, 0;
    while sourceIndex < |sourceBuffer|
      invariant 0 <= findIndex < |findBuffer| && findIndex <= sourceIndex <= |sourceBuffer|
      invariant Search(sourceBuffer, findBuffer, sourceIndex, findIndex) == Strstrl(sourceBuffer, findBuffer)
      decreases |sourceBuffer| - sourceIndex, findIndex
    {
      if sourceBuffer[sourceIndex] != findBuffer[findIndex] {
        if findIndex == 0 {
          sourceIndex := sourceIndex + 1;
        } else {
          findIndex := 0;
        }
        continue;
      }
      sourceIndex := sourceIndex + 1;
      findIndex := findIndex + 1;
      if findIndex == |findBuffer| {
        return Some(sourceIndex - findIndex);
      }
    }
    found := None;
  }

  // ---- Percent-coding ----

  const PERCENT: Byte := 37
  const PLUS: Byte := 43
  const SPACE: Byte := 32
  const AMPERSAND: Byte := 38
  const EQUALS: Byte := 61

  predicate IsDigit(c: Byte) {
    48 <= c <= 57
  }

  predicate IsAlnum(c: Byte) {
    IsDigit(c) || 65 <= c <= 90 || 97 <= c <= 122
  }

  function ToHex(x: nat): Byte
    requires x < 16
  {
    if x > 9 then x - 10 + 65 else x + 48
  }

  /** Of a byte that is no hexadecimal digit too, as an unsigned byte. */
  function FromHex(c: Byte): Byte {
    if IsDigit(c) then c - 48 else (c - 65 + 10) % 256
  }

  function EncodeByte(c: Byte): (s: Text) {
    if IsAlnum(c) then [c] else [PERCENT, ToHex(c / 16), ToHex(c % 16)]
  }

  function EncodeAll(s: Text): Text {
    if s == [] then [] else EncodeByte(s[0]) + EncodeAll(s[1..])
  }

  function URLEncode(s: Text): Text {
    EncodeAll(Upto(s, 0))
  }

  /** Bitwise or. */
  function Or(a: nat, b: nat): nat
    decreases a + b
  {
    if a == 0 && b == 0 then 0 else 2 * Or(a / 2, b / 2) + if a % 2 == 1 || b % 2 == 1 then 1 else 0
  }

  lemma {:induction false} OrBound(a: nat, b: nat, k: nat)
    requires a < Power2(k) && b < Power2(k)
    ensures Or(a, b) < Power2(k)
    decreases k
  {
    if k > 0 && (a > 0 || b > 0) {
      OrBound(a / 2, b / 2, k - 1);
    }
  }

  function Power2(k: nat): nat {
    if k == 0 then 1 else 2 * Power2(k - 1)
  }

  lemma {:induction false} OrZero(a: nat)
    ensures Or(a, 0) == a
    decreases a
  {
    if a > 0 {
      OrZero(a / 2);
    }
  }

  lemma {:induction false} OrDisjoint(a: nat, b: nat, k: nat)
    requires b < Power2(k)
    ensures Or(a * Power2(k), b) == a * Power2(k) + b
    decreases k
  {
    if k == 0 {
      OrZero(a);
    } else {
      OrDisjoint(a, b / 2, k - 1);
      Doubled(a, Power2(k - 1));
      OrEven(a * Power2(k - 1), b);
    }
  }

  lemma Doubled(a: nat, p: nat)
    ensures a * (2 * p) == 2 * (a * p)
  {
  }

  lemma OrEven(m: nat, b: nat)
    ensures Or(2 * m, b) == 2 * Or(m, b / 2) + b % 2
  {
    assert (2 * m) / 2 == m && (2 * m) % 2 == 0;
    if m == 0 && b == 0 {
      assert Or(0, 0) == 0;
    }
  }

  /** The byte two characters behind a percent sign stand for; a byte behind the end counts as NUL. */
  function HexByte(high: Byte, low: Byte): (c: Byte) {
    OrBound256(FromHex(high), FromHex(low));
    Or(FromHex(high) * 16 % 256, FromHex(low))
  }

  lemma OrBound256(a: Byte, b: Byte)
    ensures Or(a * 16 % 256, b) < 256
  {
    assert Power2(8) == 256 by {
      assert Power2(4) == 16;
      assert Power2(6) == 64;
    }
    OrBound(a * 16 % 256, b, 8);
  }

  function ByteAt(s: Text, i: nat): Byte {
    if i < |s| then s[i] else 0
  }

  function DecodeAll(s: Text): Text
    decreases |s|
  {
    if s == [] then []
    else if s[0] == PERCENT then
      [HexByte(ByteAt(s, 1), ByteAt(s, 2))] + DecodeAll(if |s| > 3 then s[3..] else [])
    else [if s[0] == PLUS then SPACE else s[0]] + DecodeAll(s[1..])
  }

  function URLDecode(s: Text): Text {
    DecodeAll(Upto(s, 0))
  }

  lemma HexDigit(x: nat)
    requires x < 16
    ensures FromHex(ToHex(x)) == x
  {
  }

  lemma HexByteOf(c: Byte)
    ensures HexByte(ToHex(c / 16), ToHex(c % 16)) == c
  {
    assert Power2(4) == 16;
    OrDisjoint(c / 16, c % 16, 4);
    hide Or, FromHex, ToHex, Power2;
    HexDigit(c / 16);
    HexDigit(c % 16);
  }

  lemma DecodeByte(c: Byte, rest: Text)
    ensures DecodeAll(EncodeByte(c) + rest) == [c] + DecodeAll(rest)
  {
    hide HexByte;
    HexByteOf(c);
    var s := EncodeByte(c) + rest;
    if IsAlnum(c) {
      assert s[1..] == rest;
    } else {
      assert s[0] == PERCENT && s[1] == ToHex(c / 16) && s[2] == ToHex(c % 16);
      assert |s| > 3 ==> s[3..] == rest;
    }
  }

  lemma {:induction false} DecodeAllEncoded(s: Text)
    ensures DecodeAll(EncodeAll(s)) == s
  {
    if s != [] {
      DecodeAllEncoded(s[1..]);
      DecodeByte(s[0], EncodeAll(s[1..]));
    }
  }

  predicate Plain(s: Text) {
    forall c :: c in s ==> IsAlnum(c) || c == PERCENT
  }

  lemma {:induction false} EncodedPlain(s: Text)
    ensures Plain(EncodeAll(s))
  {
    if s != [] {
      EncodedPlain(s[1..]);
      assert forall c :: c in EncodeByte(s[0]) ==> IsAlnum(c) || c == PERCENT;
    }
  }

  lemma {:induction false} PlainHasNoNul(s: Text)
    requires Plain(s)
    ensures Upto(s, 0) == s
  {
    if s != [] {
      assert s[0] in s;
      forall c | c in s[1..] ensures c in s {
      }
      PlainHasNoNul(s[1..]);
    }
  }

  /** Decoding undoes encoding, for every string up to its first NUL. */
  lemma URLRoundTrip(s: Text)
    ensures URLDecode(URLEncode(s)) == Upto(s, 0)
  {
    EncodedPlain(Upto(s, 0));
    PlainHasNoNul(URLEncode(s));
    DecodeAllEncoded(Upto(s, 0));
  }

  /** Letters and digits are written as they are and every other byte as a percent sign and two digits, the
      letters among them capitals. */
  lemma EncodedExactly(c: Byte)
    requires c != 0
    ensures URLEncode([c]) ==
      if 48 <= c <= 57 || 65 <= c <= 90 || 97 <= c <= 122 then [c]
      else [37, if c < 160 then 48 + c / 16 else 55 + c / 16, if c % 16 < 10 then 48 + c % 16 else 55 + c % 16]
  {
    assert Upto([c], 0) == [c] + Upto([], 0);
    assert EncodeAll([c]) == EncodeByte(c) + EncodeAll([]);
  }

  /** What a byte counts for behind a percent sign: a digit for its value, and any other byte for its distance
      from byte 55, in eight bits. */
  lemma HexValue(c: Byte)
    ensures FromHex(c) == if 48 <= c <= 57 then c - 48 else if c < 55 then c + 201 else c - 55
  {
  }

  /** A percent sign before the last byte takes the NUL behind that for its second digit. */
  lemma PercentNearEnd(c: Byte)
    ensures DecodeAll([37, c]) == [HexByte(c, 0)]
  {
    hide HexByte;
    assert DecodeAll([]) == [];
  }

  // ---- What other writers encode ----

  /** A form writes a space as a plus sign, which is byte 43 for byte 32, and may leave other bytes that
      mean nothing to the decoder as they are. */
  function FormByte(c: Byte, keep: set<Byte>): Text {
    if c == 32 then [43]
    else if c in keep && c != 37 && c != 43 then [c]
    else EncodeByte(c)
  }

  function FormEncode(s: Text, keep: set<Byte>): Text {
    if s == [] then [] else FormByte(s[0], keep) + FormEncode(s[1..], keep)
  }

  lemma {:induction false} FormDecoded(s: Text, keep: set<Byte>)
    ensures DecodeAll(FormEncode(s, keep)) == s
  {
    if s != [] {
      FormDecoded(s[1..], keep);
      var rest := FormEncode(s[1..], keep);
      if s[0] == 32 || (s[0] in keep && s[0] != 37 && s[0] != 43) {
        var t := FormByte(s[0], keep) + rest;
        assert t[1..] == rest;
      } else {
        DecodeByte(s[0], rest);
      }
    }
  }

  /** Decoding undoes that too, whatever bytes but the percent and the plus sign are left as they are. */
  lemma FormRoundTrip(s: Text, keep: set<Byte>)
    requires 0 !in s
    ensures URLDecode(FormEncode(s, keep)) == s
  {
    FormHasNoNul(s, keep);
    UptoWhole(FormEncode(s, keep), 0);
    FormDecoded(s, keep);
  }

  lemma {:induction false} FormHasNoNul(s: Text, keep: set<Byte>)
    requires 0 !in s
    ensures 0 !in FormEncode(s, keep)
  {
    if s != [] {
      assert s == [s[0]] + s[1..];
      FormHasNoNul(s[1..], keep);
    }
  }

  /** A hexadecimal digit from ten on in small letters. */
  function SmallHex(x: nat): Byte
    requires 10 <= x < 16
  {
    97 + (x - 10)
  }

  /** The decoder takes small hexadecimal letters for digits by the distance of the capital ones. In the
      first place that does no harm. In the second it sets the bit worth 32, so the byte is right if and
      only if that bit belongs to it; section 2.1 of RFC 3986 has the two cases equal. */
  lemma SmallHexExactly(high: nat, low: nat)
    requires high < 16 && 10 <= low < 16
    ensures HexByte(ToHex(high), SmallHex(low)) == 16 * high + low <==> (high / 2) % 2 == 1
  {
    hide Or, ToHex;
    HexDigit(high);
    OrShifted(high, low);
    OrTwo(high);
  }

  lemma OrShifted(high: nat, low: nat)
    requires low < 16
    ensures Or(16 * high, 32 + low) == 16 * Or(high, 2) + low
  {
    hide Or;
    var a, b, c := 16 + low / 2, 8 + low / 4, 4 + low / 8;
    OrEven(8 * high, 32 + low);
    OrEven(4 * high, a);
    OrEven(2 * high, b);
    OrEven(high, c);
    assert (32 + low) / 2 == a && a / 2 == b && b / 2 == c && c / 2 == 2;
  }

  lemma SmallHexFirst(high: nat, low: nat)
    requires 10 <= high < 16 && low < 16
    ensures HexByte(SmallHex(high), ToHex(low)) == 16 * high + low
  {
    hide Or, ToHex;
    HexDigit(low);
    assert (32 + high) * 16 % 256 == 16 * high;
    OrLow(high, low);
  }

  lemma OrLow(high: nat, low: nat)
    requires low < 16
    ensures Or(16 * high, low) == 16 * high + low
  {
    hide Or;
    OrDisjoint(high, low, 4);
    assert Power2(4) == 16;
  }

  lemma OrStep(a: nat, b: nat)
    ensures Or(a, b) == 2 * Or(a / 2, b / 2) + if a % 2 == 1 || b % 2 == 1 then 1 else 0
  {
    if a == 0 && b == 0 {
      assert Or(0, 0) == 0;
    }
  }

  lemma OrTwo(a: nat)
    ensures Or(a, 2) == if (a / 2) % 2 == 1 then a else a + 2
  {
    hide Or;
    OrStep(a, 2);
    OrStep(a / 2, 1);
    OrZero(a / 2 / 2);
  }

  method EncodeText(s: Text) returns (out: Text)
    ensures out == URLEncode(s)
  {
    hide EncodeAll, Upto, ToHex;
    out := [];
    var ix := 0;
    assert s[0..] == s;
    assert [] + URLEncode(s) == URLEncode(s);
    while ix < |s| && s[ix] != 0
      invariant 0 <= ix <= |s|
      invariant out + URLEncode(s[ix..]) == URLEncode(s)
    {
      EncodeFirst(s[ix..]);
      assert s[ix..][1..] == s[ix + 1..];
      var c := s[ix];
      var buf := if IsAlnum(c) then [c] else [PERCENT, ToHex(c / 16), ToHex(c % 16)];
      assert out + (buf + URLEncode(s[ix + 1..])) == out + buf + URLEncode(s[ix + 1..]);
      out := out + buf;
      ix := ix + 1;
    }
    EncodeEnd(s[ix..]);
    assert out + [] == out;
  }

  lemma EncodeEnd(s: Text)
    requires s == [] || s[0] == 0
    ensures URLEncode(s) == []
  {
  }

  lemma EncodeFirst(s: Text)
    requires s != [] && s[0] != 0
    ensures URLEncode(s) == EncodeByte(s[0]) + URLEncode(s[1..])
  {
    assert Upto(s, 0)[1..] == Upto(s[1..], 0);
  }

  /** One turn of the decoder at place `ix`. */
  lemma DecodeAt(text: Text, ix: nat)
    requires ix < |text|
    ensures var left := text[ix..];
            DecodeAll(left) ==
              if text[ix] == PERCENT then
                [HexByte(ByteAt(text, ix + 1), ByteAt(text, ix + 2))] + DecodeAll(From(text, ix + 3))
              else [if text[ix] == PLUS then SPACE else text[ix]] + DecodeAll(From(text, ix + 1))
  {
    hide HexByte;
    var left := text[ix..];
    assert ByteAt(left, 1) == ByteAt(text, ix + 1) && ByteAt(left, 2) == ByteAt(text, ix + 2);
    assert (if |left| > 3 then left[3..] else []) == From(text, ix + 3);
    assert left[1..] == From(text, ix + 1);
  }

  function From(s: Text, i: nat): Text {
    if i < |s| then s[i..] else []
  }

  method DecodeText(s: Text) returns (out: Text)
    ensures out == URLDecode(s)
  {
    hide HexByte, DecodeAll, Upto;
    var text := Upto(s, 0);
    out := [];
    var ix := 0;
    assert From(text, 0) == text;
    assert [] + DecodeAll(text) == DecodeAll(text);
    while ix < |text|
      invariant 0 <= ix
      invariant out + DecodeAll(From(text, ix)) == URLDecode(s)
    {
      DecodeAt(text, ix);
      var ch: Byte := 0;
      ghost var before := out;
      if text[ix] == PERCENT {
        ch := HexByte(ByteAt(text, ix + 1), ByteAt(text, ix + 2));
        ix := ix + 2;
      } else if text[ix] == PLUS {
        ch := SPACE;
      } else {
        ch := text[ix];
      }
      ix := ix + 1;
      out := out + [ch];
      assert out + DecodeAll(From(text, ix)) == before + ([ch] + DecodeAll(From(text, ix)));
    }
    DecodeNothing();
    assert out + [] == out;
  }

  lemma DecodeNothing()
    ensures DecodeAll([]) == []
  {
  }

  // ---- The query string ----

  /** A property: a string, or a vector once a name with "[]" has come. */
  datatype Value = Single(text: Text) | Vector(items: seq<Text>)

  type Properties = map<Text, Value>

  function Items(v: Value): seq<Text> {
    match v
    case Single(text) => [text]
    case Vector(items) => items
  }

  const BRACKETS: Text := [91, 93]

  predicate IsVectorName(p: Text) {
    |p| > 2 && p[|p| - 2..] == BRACKETS
  }

  function BaseName(p: Text): Text {
    if IsVectorName(p) then p[..|p| - 2] else p
  }

  /** The body of the loop once name and value are known: the first one stays; a vector name adds. */
  function AddProperty(m: Properties, p: Text, v: Text): Properties {
    var k := BaseName(p);
    if !IsVectorName(p) then if k in m then m else m[k := Single(v)]
    else if k in m then m[k := Vector(Items(m[k]) + [v])]
    else m[k := Vector([v])]
  }

  /** `find`: the first place of `c` from `from` on, -1 if there is none. */
  function Find(s: Text, c: Byte, from: nat): (k: int)
    ensures -1 <= k < |s|
    ensures k >= 0 ==> from <= k && s[k] == c && c !in s[from..k]
    ensures k < 0 && from <= |s| ==> c !in s[from..]
    decreases |s| - from
  {
    if from >= |s| then -1 else if s[from] == c then from else Find(s, c, from + 1)
  }

  /** `GetPropertys` from the start of one parameter on; it stops at one without an equals sign. */
  function Collect(s: Text, decode: bool, m: Properties): Properties
    decreases |s|
  {
    var amp := Find(s, AMPERSAND, 1);
    var parameter := if amp < 0 then s else s[..amp];
    match Enter(m, parameter, decode)
    case None => m
    case Some(next) => if amp < 0 then next else Collect(s[amp + 1..], decode, next)
  }

  /** One parameter; none without an equals sign. */
  function Enter(m: Properties, parameter: Text, decode: bool): Option<Properties> {
    var eq := Find(parameter, EQUALS, 1);
    if eq < 0 then None
    else
      var p := if decode then URLDecode(parameter[..eq]) else parameter[..eq];
      var v := if decode then URLDecode(parameter[eq + 1..]) else parameter[eq + 1..];
      Some(AddProperty(m, p, v))
  }

  function PropertiesOf(s: Text, decode: bool, m: Properties): Properties {
    if s == [] then m else Collect(s, decode, m)
  }

  /** A vector name is a name that is not empty, followed by bytes 91 and 93. */
  lemma VectorNames(p: Text)
    ensures IsVectorName(p) <==> |p| > 2 && p[|p| - 2] == 91 && p[|p| - 1] == 93
    ensures BaseName(p) == if |p| > 2 && p[|p| - 2] == 91 && p[|p| - 1] == 93 then p[..|p| - 2] else p
  {
    if |p| > 2 {
      assert p[|p| - 2..] == [p[|p| - 2], p[|p| - 1]];
    }
  }

  // ---- What a well-formed query collects ----

  datatype Pair = Pair(name: Text, value: Text)

  predicate PairOk(x: Pair) {
    x.name != [] && 0 !in x.name && 0 !in x.value
  }

  /** Encoded names and values, joined. */
  function Join(xs: seq<Pair>): Text {
    if xs == [] then []
    else
      var one := URLEncode(xs[0].name) + [EQUALS] + URLEncode(xs[0].value);
      if |xs| == 1 then one else one + [AMPERSAND] + Join(xs[1..])
  }

  function AddAll(m: Properties, xs: seq<Pair>): Properties
    decreases |xs|
  {
    if xs == [] then m else AddAll(AddProperty(m, xs[0].name, xs[0].value), xs[1..])
  }

  lemma {:induction false} FindFirst(s: Text, c: Byte, from: nat, k: nat)
    requires from <= k < |s| && s[k] == c && forall i :: from <= i < k ==> s[i] != c
    ensures Find(s, c, from) == k
    decreases k - from
  {
    if from < k {
      FindFirst(s, c, from + 1, k);
    }
  }

  lemma {:induction false} FindNone(s: Text, c: Byte, from: nat)
    requires forall i :: from <= i < |s| ==> s[i] != c
    ensures Find(s, c, from) == -1
    decreases |s| - from
  {
    if from < |s| {
      FindNone(s, c, from + 1);
    }
  }

  lemma EncodedName(s: Text)
    requires s != [] && 0 !in s
    ensures URLEncode(s) != [] && Plain(URLEncode(s)) && URLDecode(URLEncode(s)) == s
  {
    UptoWhole(s, 0);
    EncodedPlain(s);
    URLRoundTrip(s);
    assert EncodeAll(s) == EncodeByte(s[0]) + EncodeAll(s[1..]);
  }

  lemma EncodedValue(s: Text)
    requires 0 !in s
    ensures Plain(URLEncode(s)) && URLDecode(URLEncode(s)) == s
  {
    UptoWhole(s, 0);
    EncodedPlain(s);
    URLRoundTrip(s);
  }

  /** One parameter, as the collector sees it. */
  lemma ParameterFound(x: Pair, rest: Text)
    requires PairOk(x)
    requires rest == [] || rest[0] == AMPERSAND
    ensures var one := URLEncode(x.name) + [EQUALS] + URLEncode(x.value);
            && Find(one + rest, AMPERSAND, 1) == (if rest == [] then -1 else |one|)
            && Find(one, EQUALS, 1) == |URLEncode(x.name)|
  {
    hide URLEncode, URLDecode, Find;
    EncodedName(x.name);
    EncodedValue(x.value);
    var n, v := URLEncode(x.name), URLEncode(x.value);
    var one := n + [EQUALS] + v;
    var s := one + rest;
    forall i | 0 <= i < |one| ensures one[i] != AMPERSAND && (i < |n| ==> one[i] != EQUALS) {
      if i < |n| {
        assert one[i] in n;
      } else if i > |n| {
        assert one[i] in v;
      }
    }
    if rest == [] {
      FindNone(s, AMPERSAND, 1);
    } else {
      FindFirst(s, AMPERSAND, 1, |one|);
    }
    FindFirst(one, EQUALS, 1, |n|);
  }

  lemma {:induction false} CollectJoined(xs: seq<Pair>, m: Properties)
    requires xs != [] && forall x :: x in xs ==> PairOk(x)
    ensures Collect(Join(xs), true, m) == AddAll(m, xs)
    decreases |xs|
  {
    hide URLEncode, URLDecode, AddProperty, Find;
    var x := xs[0];
    assert x in xs;
    var n, v := URLEncode(x.name), URLEncode(x.value);
    var one := n + [EQUALS] + v;
    var rest := if |xs| == 1 then [] else [AMPERSAND] + Join(xs[1..]);
    EncodedName(x.name);
    EncodedValue(x.value);
    ParameterFound(x, rest);
    var s := Join(xs);
    assert s == one + rest;
    assert s[..|one|] == one;
    assert one[..|n|] == n && one[|n| + 1..] == v;
    var next := AddProperty(m, x.name, x.value);
    if |xs| > 1 {
      assert s[|one| + 1..] == Join(xs[1..]);
      CollectJoined(xs[1..], next);
    } else {
      assert s == one;
      assert xs[1..] == [];
    }
  }

  /** Without decoding: names and values as they are, joined. */
  function JoinRaw(xs: seq<Pair>): Text {
    if xs == [] then []
    else
      var one := xs[0].name + [61] + xs[0].value;
      if |xs| == 1 then one else one + [38] + JoinRaw(xs[1..])
  }

  /** A name has no separator behind its first byte, and a value no ampersand. */
  predicate RawOk(x: Pair) {
    x.name != [] && (forall i :: 0 < i < |x.name| ==> x.name[i] != 61 && x.name[i] != 38) && 38 !in x.value
  }

  lemma RawFound(x: Pair, rest: Text)
    requires RawOk(x)
    requires rest == [] || rest[0] == AMPERSAND
    ensures var one := x.name + [61] + x.value;
            && Find(one + rest, AMPERSAND, 1) == (if rest == [] then -1 else |one|)
            && Find(one, EQUALS, 1) == |x.name|
  {
    hide Find;
    var n, v := x.name, x.value;
    var one := n + [61] + v;
    var s := one + rest;
    forall i | 1 <= i < |one| ensures one[i] != AMPERSAND && (i < |n| ==> one[i] != EQUALS) {
      if i > |n| {
        assert one[i] in v;
      }
    }
    if rest == [] {
      FindNone(s, AMPERSAND, 1);
    } else {
      FindFirst(s, AMPERSAND, 1, |one|);
    }
    FindFirst(one, EQUALS, 1, |n|);
  }

  /** Then the collector enters the names and values as they stand, percent signs and all. */
  lemma {:induction false} CollectRaw(xs: seq<Pair>, m: Properties)
    requires xs != [] && forall x :: x in xs ==> RawOk(x)
    ensures Collect(JoinRaw(xs), false, m) == AddAll(m, xs)
    decreases |xs|
  {
    hide URLDecode, AddProperty, Find;
    var x := xs[0];
    assert x in xs;
    var one := x.name + [61] + x.value;
    var rest := if |xs| == 1 then [] else [38] + JoinRaw(xs[1..]);
    RawFound(x, rest);
    var s := JoinRaw(xs);
    assert s == one + rest;
    assert s[..|one|] == one;
    assert one[..|x.name|] == x.name && one[|x.name| + 1..] == x.value;
    if |xs| > 1 {
      assert s[|one| + 1..] == JoinRaw(xs[1..]);
      CollectRaw(xs[1..], AddProperty(m, x.name, x.value));
    } else {
      assert s == one;
      assert xs[1..] == [];
    }
  }

  /** A parameter without an equals sign behind its first byte ends the collecting. */
  lemma CollectStops(parameter: Text, rest: Text, decode: bool, m: Properties)
    requires forall i :: 0 < i < |parameter| ==> parameter[i] != 61 && parameter[i] != 38
    requires parameter != [] && (rest == [] || rest[0] == 38)
    ensures Collect(parameter + rest, decode, m) == m
  {
    hide URLDecode;
    var s := parameter + rest;
    if rest == [] {
      FindNone(s, AMPERSAND, 1);
      assert s == parameter;
    } else {
      FindFirst(s, AMPERSAND, 1, |parameter|);
      assert s[..|parameter|] == parameter;
    }
    FindNone(parameter, EQUALS, 1);
  }

  // ---- What a name ends up with ----

  /** The values of the pairs that belong to property `k`, and of those with a vector name. */
  function ValuesOf(xs: seq<Pair>, k: Text): seq<Text> {
    if xs == [] then []
    else
      (if BaseName(xs[0].name) == k then [xs[0].value] else []) + ValuesOf(xs[1..], k)
  }

  function VectorValuesOf(xs: seq<Pair>, k: Text): seq<Text> {
    if xs == [] then []
    else
      (if BaseName(xs[0].name) == k && IsVectorName(xs[0].name) then [xs[0].value] else []) + VectorValuesOf(xs[1..], k)
  }

  /** A property that is there already: vector values are added to it, others are ignored. */
  lemma {:induction false} AddAllKnown(m: Properties, xs: seq<Pair>, k: Text)
    requires k in m
    ensures k in AddAll(m, xs)
    ensures AddAll(m, xs)[k] ==
      if VectorValuesOf(xs, k) == [] then m[k] else Vector(Items(m[k]) + VectorValuesOf(xs, k))
    decreases |xs|
  {
    if xs != [] {
      var next := AddProperty(m, xs[0].name, xs[0].value);
      AddAllKnown(next, xs[1..], k);
      var more := VectorValuesOf(xs[1..], k);
      if BaseName(xs[0].name) == k && IsVectorName(xs[0].name) {
        assert next[k] == Vector(Items(m[k]) + [xs[0].value]);
        assert Items(m[k]) + ([xs[0].value] + more) == Items(m[k]) + [xs[0].value] + more;
        assert more == [] ==> [xs[0].value] + more == [xs[0].value];
      } else {
        assert next[k] == m[k];
        assert [] + more == more;
      }
    }
  }

  lemma {:induction false} AddAllOthers(m: Properties, xs: seq<Pair>, k: Text)
    requires ValuesOf(xs, k) == []
    ensures (k in AddAll(m, xs) <==> k in m) && (k in m ==> AddAll(m, xs)[k] == m[k])
    decreases |xs|
  {
    if xs != [] {
      AddAllOthers(AddProperty(m, xs[0].name, xs[0].value), xs[1..], k);
    }
  }

  /** What property `k` holds after `xs`: the first value; or, once there is a vector name, the first
      value and then every later one with a vector name, in order. */
  ghost predicate Collected(r: Properties, xs: seq<Pair>, k: Text, first: nat) {
    && first < |xs| && BaseName(xs[first].name) == k
    && (forall i :: 0 <= i < first ==> BaseName(xs[i].name) != k)
    && k in r
    && var more := VectorValuesOf(xs[first + 1..], k);
       r[k] == if IsVectorName(xs[first].name) || more != [] then Vector([xs[first].value] + more)
               else Single(xs[first].value)
  }

  lemma {:induction false} AddAllNew(m: Properties, xs: seq<Pair>, k: Text, first: nat)
    requires k !in m && first < |xs| && BaseName(xs[first].name) == k
    requires forall i :: 0 <= i < first ==> BaseName(xs[i].name) != k
    ensures Collected(AddAll(m, xs), xs, k, first)
    decreases |xs|
  {
    var next := AddProperty(m, xs[0].name, xs[0].value);
    if first == 0 {
      AddAllKnown(next, xs[1..], k);
      assert [xs[0].value] + [] == [xs[0].value];
    } else {
      AddAllNew(next, xs[1..], k, first - 1);
      assert xs[1..][first - 1 + 1..] == xs[first + 1..];
    }
  }

  lemma QueryAddsAll(xs: seq<Pair>)
    requires forall x :: x in xs ==> PairOk(x)
    ensures PropertiesOf(Join(xs), true, map[]) == AddAll(map[], xs)
  {
    if xs != [] {
      hide Collect, URLEncode;
      assert xs[0] in xs;
      EncodedName(xs[0].name);
      CollectJoined(xs, map[]);
    }
  }

  /** Encoding names and values, joining them and collecting them again gives, for each property, its
      first value, or for vector names all their values in order. */
  lemma QueryCollected(xs: seq<Pair>, k: Text, first: nat)
    requires (forall x :: x in xs ==> PairOk(x)) && first < |xs| && BaseName(xs[first].name) == k
    requires forall i :: 0 <= i < first ==> BaseName(xs[i].name) != k
    ensures Collected(PropertiesOf(Join(xs), true, map[]), xs, k, first)
  {
    hide PropertiesOf, Join, Collected, AddAll;
    QueryAddsAll(xs);
    AddAllNew(map[], xs, k, first);
  }

  /** And no property comes from elsewhere. */
  lemma QueryOnly(xs: seq<Pair>, k: Text)
    requires forall x :: x in xs ==> PairOk(x)
    requires ValuesOf(xs, k) == []
    ensures k !in PropertiesOf(Join(xs), true, map[])
  {
    hide PropertiesOf, Join, AddAll;
    QueryAddsAll(xs);
    AddAllOthers(map[], xs, k);
  }

  // ---- The collector in place ----

  lemma {:induction false} FindInSuffix(s: Text, c: Byte, at: nat, from: nat)
    requires at <= |s|
    ensures Find(s, c, at + from) == if Find(s[at..], c, from) < 0 then -1 else at + Find(s[at..], c, from)
    decreases |s| - at - from
  {
    if at + from < |s| {
      assert s[at..][from] == s[at + from];
      FindInSuffix(s, c, at, from + 1);
    }
  }

  lemma CollectStep(s: Text, decode: bool, m: Properties)
    ensures var amp := Find(s, AMPERSAND, 1);
            Collect(s, decode, m) ==
              match Enter(m, if amp < 0 then s else s[..amp], decode)
              case None => m
              case Some(next) => if amp < 0 then next else Collect(s[amp + 1..], decode, next)
  {
    hide Find, Enter;
  }

  /** The same, told by places in the whole string. */
  lemma CollectAt(s: Text, find: nat, amp: int, parameter: Text, decode: bool, m: Properties)
    requires find <= |s| && amp == Find(s, AMPERSAND, find + 1)
    requires parameter == if amp < 0 then s[find..] else s[find..amp]
    ensures Collect(s[find..], decode, m) ==
      match Enter(m, parameter, decode)
      case None => m
      case Some(next) => if amp < 0 then next else Collect(s[amp + 1..], decode, next)
  {
    hide *;
    var left := s[find..];
    FindInSuffix(s, AMPERSAND, find, 1);
    CollectStep(left, decode, m);
    if amp >= 0 {
      assert left[..amp - find] == s[find..amp];
      assert left[amp - find + 1..] == s[amp + 1..];
    }
  }

  class Request {
    var propertys: Properties

    method GetPropertys(s: Text, urlDecode: bool)
      modifies this
      ensures propertys == PropertiesOf(s, urlDecode, old(propertys))
    {
      hide Find, Enter, Collect;
      if s == [] { return; }
      var find := 0;
      var more := true;
      assert s[0..] == s;
      while more
        invariant 0 <= find <= |s|
        invariant (if more then Collect(s[find..], urlDecode, propertys) else propertys) == Collect(s, urlDecode, old(propertys))
        decreases if more then |s| - find + 1 else 0
      {
        var findParameter := Find(s, AMPERSAND, find + 1);
        var parameter := if findParameter < 0 then s[find..] else s[find..findParameter];
        CollectAt(s, find, findParameter, parameter, urlDecode, propertys);
        more := findParameter >= 0;
        find := if more then findParameter + 1 else find;
        var ok := EnterParameter(parameter, urlDecode);
        if !ok {
          return;
        }
      }
    }

    method EnterParameter(parameter: Text, urlDecode: bool) returns (ok: bool)
      modifies this
      ensures match Enter(old(propertys), parameter, urlDecode)
        case None => !ok && propertys == old(propertys)
        case Some(next) => ok && propertys == next
    {
      hide Find, URLDecode, AddProperty;
      var equals := Find(parameter, EQUALS, 1);
      if equals < 0 { return false; }
      var p := parameter[..equals];
      var v := parameter[equals + 1..];
      if urlDecode {
        p := DecodeText(p);
        v := DecodeText(v);
      }
      Insert(p, v);
      ok := true;
    }

    method Insert(p: Text, v: Text)
      modifies this
      ensures propertys == AddProperty(old(propertys), p, v)
    {
      var isVector := |p| > 2 && p[|p| - 2..] == BRACKETS;
      var name := if isVector then p[..|p| - 2] else p;
      if name !in propertys {
        propertys := propertys[name := if isVector then Vector([v]) else Single(v)];
      } else if isVector {
        propertys := propertys[name := Vector(Items(propertys[name]) + [v])];
      }
    }
  }
}
