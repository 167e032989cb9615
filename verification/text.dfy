/**
 The string operations the source uses: `toLowerCase` (modelled on ASCII
 letters), `includes` on strings, the decimal rendering of a number
 (`toString`), `padStart(3, '0')` and `slice(-8)`, and the case-insensitive
 search test every list filter repeats.
 */
module Text {

  function LowerChar(c: char): char
  {
    if 'A' <= c <= 'Z' then (c as int + 32) as char else c
  }

  /** `toLowerCase`, restricted to the ASCII letters. */
  function Lower(s: string): (r: string)
    ensures |r| == |s|
    ensures forall i :: 0 <= i < |s| ==> r[i] == LowerChar(s[i])
  {
    seq(|s|, i requires 0 <= i < |s| => LowerChar(s[i]))
  }

  /** `hay.includes(needle)`: the needle occurs at some position of the hay. */
  predicate Contains(hay: string, needle: string)
    decreases |hay|
  {
    needle <= hay || (|hay| > 0 && Contains(hay[1..], needle))
  }

  /** `field.toLowerCase().includes(term.toLowerCase())`. */
  predicate Matches(field: string, term: string)
  {
    Contains(Lower(field), Lower(term))
  }

  /** The empty search term matches every field. */
  lemma EmptyTermMatchesAll()
    ensures forall field :: Matches(field, "")
  {
    assert Lower("") == [];
  }

  /** `needle` is the slice of `hay` that starts at position `i`. */
  predicate OccursAt(hay: string, needle: string, i: int)
  {
    0 <= i && i + |needle| <= |hay| && hay[i..i + |needle|] == needle
  }

  /**
   The recursive test agrees with the index definition of `includes`: the
   needle is found exactly when it occurs at some position of the hay.
   */
  lemma {:induction false} ContainsIffOccurs(hay: string, needle: string)
    ensures Contains(hay, needle) <==> exists i :: OccursAt(hay, needle, i)
    decreases |hay|
  {
    if |hay| == 0 {
      if needle == [] {
        assert OccursAt(hay, needle, 0);
      }
      if exists i :: OccursAt(hay, needle, i) {
        var i :| OccursAt(hay, needle, i);
        assert needle == [];
      }
    } else {
      var tail := hay[1..];
      ContainsIffOccurs(tail, needle);
      if Contains(hay, needle) {
        if needle <= hay {
          assert OccursAt(hay, needle, 0);
        } else {
          var j :| OccursAt(tail, needle, j);
          assert hay[j + 1..j + 1 + |needle|] == tail[j..j + |needle|];
          assert OccursAt(hay, needle, j + 1);
        }
      }
      if exists i :: OccursAt(hay, needle, i) {
        var i :| OccursAt(hay, needle, i);
        if i == 0 {
          assert needle == hay[..|needle|];
        } else {
          forall k | 0 <= k < |needle| ensures tail[i - 1 + k] == needle[k] {
            assert hay[i..i + |needle|][k] == hay[i + k];
          }
          assert tail[i - 1..i - 1 + |needle|] == needle;
          assert OccursAt(tail, needle, i - 1);
        }
      }
    }
  }

  /** Lower-casing twice is lower-casing once. */
  lemma LowerIdempotent(s: string)
    ensures Lower(Lower(s)) == Lower(s)
  {
  }

  /**
   The search ignores case on both sides: lower-casing the field or the term
   first changes no answer, and a match is an occurrence of the lower-cased
   term in the lower-cased field.
   */
  lemma MatchesIgnoresCase(field: string, term: string)
    ensures Matches(Lower(field), term) == Matches(field, term)
    ensures Matches(field, Lower(term)) == Matches(field, term)
    ensures Matches(field, term) <==> exists i :: OccursAt(Lower(field), Lower(term), i)
  {
    LowerIdempotent(field);
    LowerIdempotent(term);
    ContainsIffOccurs(Lower(field), Lower(term));
  }

  function DigitChar(d: nat): char
    requires d < 10
  {
    "0123456789"[d]
  }

  predicate IsDigit(c: char)
  {
    '0' <= c <= '9'
  }

  function DigitValue(c: char): nat
    requires IsDigit(c)
  {
    c as int - '0' as int
  }

  /** `n.toString()` for a non-negative integer: its decimal digits, without leading zeros. */
  function DecimalString(n: nat): (r: string)
    ensures |r| >= 1
    ensures forall i :: 0 <= i < |r| ==> IsDigit(r[i])
    decreases n
  {
    if n < 10 then [DigitChar(n)] else DecimalString(n / 10) + [DigitChar(n % 10)]
  }

  /** The number a string of decimal digits denotes (leading zeros allowed). */
  function ParseDecimal(s: string): nat
    requires forall i :: 0 <= i < |s| ==> IsDigit(s[i])
    decreases |s|
  {
    if |s| == 0 then 0 else ParseDecimal(s[..|s| - 1]) * 10 + DigitValue(s[|s| - 1])
  }

  function Zeros(k: nat): (r: string)
    ensures |r| == k
    ensures forall i :: 0 <= i < k ==> r[i] == '0'
  {
    seq(k, i => '0')
  }

  /** `String(n).padStart(3, '0')`: the decimal digits of `n`, left-padded with zeros to three characters. */
  function Pad3(n: nat): (r: string)
    ensures forall i :: 0 <= i < |r| ==> IsDigit(r[i])
  {
    var d := DecimalString(n);
    if |d| < 3 then Zeros(3 - |d|) + d else d
  }

  /** `s.slice(-8)`: the last eight characters, or all of them when there are fewer. */
  function Last8(s: string): (r: string)
    ensures |r| == if |s| < 8 then |s| else 8
    ensures s == s[..|s| - |r|] + r
  {
    if |s| <= 8 then s else s[|s| - 8..]
  }

  lemma {:induction false} ParseDecimalString(n: nat)
    ensures ParseDecimal(DecimalString(n)) == n
    decreases n
  {
    var d := DecimalString(n);
    if n >= 10 {
      ParseDecimalString(n / 10);
      assert d[..|d| - 1] == DecimalString(n / 10);
    }
  }

  lemma {:induction false} ParseLeadingZeros(k: nat, s: string)
    requires forall i :: 0 <= i < |s| ==> IsDigit(s[i])
    ensures ParseDecimal(Zeros(k) + s) == ParseDecimal(s)
    decreases |s|, k
  {
    var z := Zeros(k) + s;
    if |s| == 0 {
      assert z == Zeros(k);
      if k > 0 {
        assert z[..|z| - 1] == Zeros(k - 1);
        ParseLeadingZeros(k - 1, []);
        assert Zeros(k - 1) + [] == Zeros(k - 1);
      }
    } else {
      assert z[..|z| - 1] == Zeros(k) + s[..|s| - 1];
      ParseLeadingZeros(k, s[..|s| - 1]);
    }
  }

  /** Zero padding loses nothing: the padded string still denotes `n`. */
  lemma ParsePad3(n: nat)
    ensures ParseDecimal(Pad3(n)) == n
  {
    var d := DecimalString(n);
    ParseDecimalString(n);
    if |d| < 3 {
      ParseLeadingZeros(3 - |d|, d);
    }
  }

  /** Distinct numbers receive distinct padded strings. */
  lemma Pad3Injective(a: nat, b: nat)
    ensures Pad3(a) == Pad3(b) <==> a == b
  {
    if Pad3(a) == Pad3(b) {
      ParsePad3(a);
      ParsePad3(b);
    }
  }

  /** A one-letter prefix followed by a padded number: the ids `T001`, `P001`, `TPL001`. */
  function PrefixedId(prefix: string, n: nat): string
  {
    prefix + Pad3(n)
  }

  /** Prefixed ids with the same prefix are equal exactly when their numbers are. */
  lemma PrefixedIdInjective(prefix: string, a: nat, b: nat)
    ensures PrefixedId(prefix, a) == PrefixedId(prefix, b) <==> a == b
  {
    if PrefixedId(prefix, a) == PrefixedId(prefix, b) {
      assert Pad3(a) == PrefixedId(prefix, a)[|prefix|..];
      assert Pad3(b) == PrefixedId(prefix, b)[|prefix|..];
      Pad3Injective(a, b);
    }
  }

  /** The number a prefixed id carries, or 0 when it is not `prefix` followed by digits. */
  function IdNumber(prefix: string, id: string): nat
  {
    if prefix <= id && forall i :: |prefix| <= i < |id| ==> IsDigit(id[i])
    then ParseDecimal(id[|prefix|..])
    else 0
  }

  /** Reading the number back out of a prefixed id returns it. */
  lemma IdNumberOfPrefixedId(prefix: string, n: nat)
    ensures IdNumber(prefix, PrefixedId(prefix, n)) == n
  {
    var id := PrefixedId(prefix, n);
    assert id[|prefix|..] == Pad3(n);
    ParsePad3(n);
  }
}
