/** Text helpers standing in for the Kotlin standard library calls the core
    uses: `lowercase()`, `contains`, `split(",")`, `Int.toString()` and
    `String.toLong()`. */
module Text {
  import opened Wrappers

  /** `Char.lowercaseChar` restricted to the ASCII letters. */
  function LowerChar(c: char): char {
    if 'A' <= c <= 'Z' then (c as int + 32) as char else c
  }

  /** `String.lowercase()`, folding ASCII letters only. */
  function Lowercase(s: string): string {
    seq(|s|, i requires 0 <= i < |s| => LowerChar(s[i]))
  }

  predicate IsPrefix(p: string, s: string) {
    |p| <= |s| && s[..|p|] == p
  }

  /** `s.contains(sub)`: `sub` occurs in `s` as a contiguous substring. */
  predicate Contains(s: string, sub: string)
    decreases |s|
  {
    IsPrefix(sub, s) || (|s| > 0 && Contains(s[1..], sub))
  }

  /** `sub` occurs in `s` starting at offset `i`. */
  predicate OccursAt(s: string, sub: string, i: nat) {
    i + |sub| <= |s| && s[i..i + |sub|] == sub
  }

  /** `Contains` holds exactly when there is an offset where `sub` occurs. */
  lemma {:induction false} ContainsIffOccurs(s: string, sub: string)
    ensures Contains(s, sub) <==> exists i: nat :: OccursAt(s, sub, i)
    decreases |s|
  {
    if IsPrefix(sub, s) {
      assert OccursAt(s, sub, 0);
    }
    if OccursAt(s, sub, 0) {
      assert IsPrefix(sub, s);
    }
    if |s| > 0 {
      ContainsIffOccurs(s[1..], sub);
      if exists i: nat :: OccursAt(s[1..], sub, i) {
        var i: nat :| OccursAt(s[1..], sub, i);
        assert s[1..][i..i + |sub|] == s[i + 1..i + 1 + |sub|];
        assert OccursAt(s, sub, i + 1);
      }
      if exists i: nat :: OccursAt(s, sub, i) {
        var i: nat :| OccursAt(s, sub, i);
        if i > 0 {
          assert s[1..][i - 1..i - 1 + |sub|] == s[i..i + |sub|];
          assert OccursAt(s[1..], sub, i - 1);
        }
      }
    } else {
      if exists i: nat :: OccursAt(s, sub, i) {
        var i: nat :| OccursAt(s, sub, i);
        assert i == 0;
      }
    }
  }

  /** A substring occurrence found at offset `i` makes `Contains` true. */
  lemma ContainsAt(s: string, sub: string, i: nat)
    requires OccursAt(s, sub, i)
    ensures Contains(s, sub)
  {
    ContainsIffOccurs(s, sub);
  }

  /** A word that occurs at no offset is not contained. */
  lemma NoOccurrence(s: string, sub: string)
    requires forall i: nat :: !OccursAt(s, sub, i)
    ensures !Contains(s, sub)
  {
    ContainsIffOccurs(s, sub);
  }

  /** A word with a letter the text lacks is not contained in it. */
  lemma MissingCharNotContained(s: string, sub: string, c: char)
    requires c in sub && c !in s
    ensures !Contains(s, sub)
  {
    ContainsIffOccurs(s, sub);
  }

  /** A text contains itself, so equal to a word implies containing it. */
  lemma ContainsSelf(s: string)
    ensures Contains(s, s)
  {
    ContainsAt(s, s, 0);
  }

  // ---------------------------------------------------------------------------
  // Decimal digits

  predicate IsDigit(c: char) {
    '0' <= c <= '9'
  }

  predicate AllDigits(s: string) {
    forall i :: 0 <= i < |s| ==> IsDigit(s[i])
  }

  function DigitChar(d: nat): (c: char)
    requires d < 10
    ensures IsDigit(c) && c as int - '0' as int == d
  {
    ('0' as int + d) as char
  }

  /** `n.toString()` for a non-negative integer: its decimal digits, most
      significant first, without leading zeros. */
  function NatToString(n: nat): (s: string)
    ensures |s| >= 1 && AllDigits(s)
    ensures n >= 10 <==> |s| >= 2
    decreases n
  {
    if n < 10 then [DigitChar(n)] else NatToString(n / 10) + [DigitChar(n % 10)]
  }

  /** The number a string of decimal digits denotes. */
  function DigitsValue(s: string): nat
    requires AllDigits(s)
    decreases |s|
  {
    if s == [] then 0
    else DigitsValue(s[..|s| - 1]) * 10 + (s[|s| - 1] as int - '0' as int)
  }

  /** Reading back the rendering of a number gives the number. */
  lemma {:induction false} NatToStringRoundTrip(n: nat)
    ensures DigitsValue(NatToString(n)) == n
    decreases n
  {
    if n >= 10 {
      var s := NatToString(n);
      assert s[..|s| - 1] == NatToString(n / 10);
      NatToStringRoundTrip(n / 10);
    }
  }

  /** Distinct numbers render to distinct texts. */
  lemma NatToStringInjective(m: nat, n: nat)
    requires NatToString(m) == NatToString(n)
    ensures m == n
  {
    NatToStringRoundTrip(m);
    NatToStringRoundTrip(n);
  }

  // ---------------------------------------------------------------------------
  // String.toLong()

  const LongMin: int := -0x8000_0000_0000_0000
  const LongMax: int := 0x7FFF_FFFF_FFFF_FFFF

  /** The text after an optional leading sign. */
  function Unsigned(s: string): string {
    if |s| > 0 && (s[0] == '-' || s[0] == '+') then s[1..] else s
  }

  /** The shape `toLong` accepts: an optional '+' or '-', then one or more
      ASCII digits. */
  predicate LongSyntax(s: string) {
    |Unsigned(s)| >= 1 && AllDigits(Unsigned(s))
  }

  /** The value a text of that shape denotes, before the range check. */
  function SignedValue(s: string): int
    requires LongSyntax(s)
  {
    if s[0] == '-' then 0 - DigitsValue(Unsigned(s)) as int else DigitsValue(Unsigned(s))
  }

  /** `String.toLong()`. `None` stands for the `NumberFormatException` the
      Kotlin call throws: on a text of the wrong shape, and on a value
      outside the 64-bit range. */
  function ParseLong(s: string): (r: Option<int>)
    ensures r.Some? <==> LongSyntax(s) && LongMin <= SignedValue(s) <= LongMax
    ensures r.Some? ==> r.value == SignedValue(s)
  {
    if |s| == 0 then None
    else if s[0] == '-' || s[0] == '+' then
      if |s| == 1 || !AllDigits(s[1..]) then None
      else
        var v: int := if s[0] == '-' then 0 - DigitsValue(s[1..]) as int else DigitsValue(s[1..]);
        if LongMin <= v <= LongMax then Some(v) else None
    else if !AllDigits(s) then None
    else if DigitsValue(s) <= LongMax then Some(DigitsValue(s))
    else None
  }

  /** `n.toString().toLong() == n` for every non-negative Long. */
  lemma ParseLongOfNatToString(n: nat)
    requires n <= LongMax
    ensures ParseLong(NatToString(n)) == Some(n)
  {
    NatToStringRoundTrip(n);
  }

  /** Every Long survives rendering with a sign and reading back: "-" before
      the digits of a negative value, and an optional "+" before the others. */
  lemma ParseLongOfSignedText(n: int)
    requires LongMin <= n <= LongMax
    ensures n < 0 ==> ParseLong("-" + NatToString(-n)) == Some(n)
    ensures n >= 0 ==> ParseLong("+" + NatToString(n)) == Some(n)
  {
    if n < 0 {
      var t := "-" + NatToString(-n);
      assert Unsigned(t) == NatToString(-n);
      NatToStringRoundTrip(-n);
    } else {
      var t := "+" + NatToString(n);
      assert Unsigned(t) == NatToString(n);
      NatToStringRoundTrip(n);
    }
  }

  /** A text with a character other than a digit after the sign, or with
      nothing after it, is refused. */
  lemma ParseLongRefusesNonDigits(s: string, i: int)
    requires 0 <= i < |Unsigned(s)| && !IsDigit(Unsigned(s)[i])
    ensures ParseLong(s) == None
    ensures ParseLong("") == None && ParseLong("-") == None && ParseLong("+") == None
  {
    assert Unsigned("-") == [] && Unsigned("+") == [];
  }

  // ---------------------------------------------------------------------------
  // String.split(",")

  function Count(s: string, c: char): nat {
    if s == [] then 0 else (if s[0] == c then 1 else 0) + Count(s[1..], c)
  }

  /** `s.split(sep)`: the maximal pieces between occurrences of `sep`,
      keeping empty pieces; there is always one more piece than separators. */
  function Split(s: string, sep: char): (parts: seq<string>)
    ensures |parts| == Count(s, sep) + 1
    ensures forall i :: 0 <= i < |parts| ==> sep !in parts[i]
    decreases |s|
  {
    if s == [] then [""]
    else
      var rest := Split(s[1..], sep);
      if s[0] == sep then [""] + rest
      else [[s[0]] + rest[0]] + rest[1..]
  }

  /** A text without the separator is one piece. */
  lemma {:induction false} SplitNoSeparator(s: string, sep: char)
    requires sep !in s
    ensures Split(s, sep) == [s]
    decreases |s|
  {
    if s != [] {
      assert sep !in s[1..];
      SplitNoSeparator(s[1..], sep);
      assert [s[0]] + s[1..] == s;
    }
  }

  /** Splitting at the first separator. */
  lemma {:induction false} SplitAtSeparator(a: string, sep: char, b: string)
    requires sep !in a
    ensures Split(a + [sep] + b, sep) == [a] + Split(b, sep)
    decreases |a|
  {
    var s := a + [sep] + b;
    if a == [] {
      assert s[1..] == b;
    } else {
      assert s[1..] == a[1..] + [sep] + b;
      assert sep !in a[1..];
      SplitAtSeparator(a[1..], sep, b);
      assert [a[0]] + a[1..] == a;
    }
  }

  /** Two separator-free texts joined by one separator split back into them. */
  lemma SplitJoined(a: string, sep: char, b: string)
    requires sep !in a && sep !in b
    ensures Split(a + [sep] + b, sep) == [a, b]
  {
    SplitAtSeparator(a, sep, b);
    SplitNoSeparator(b, sep);
  }

  lemma {:induction false} CountAppend(a: string, b: string, c: char)
    ensures Count(a + b, c) == Count(a, c) + Count(b, c)
    decreases |a|
  {
    if a != [] {
      assert (a + b)[1..] == a[1..] + b;
      CountAppend(a[1..], b, c);
    } else {
      assert a + b == b;
    }
  }

  lemma {:induction false} CountAbsent(s: string, c: char)
    requires c !in s
    ensures Count(s, c) == 0
    decreases |s|
  {
    if s != [] {
      assert c !in s[1..];
      CountAbsent(s[1..], c);
    }
  }
}
