/** String helpers with Python's meaning: `str.isspace`, `str.strip`, the `in`
    substring test, `str.split(sep)`, decimal rendering of integers. */
module Text {

  /** Python's `str.isspace()` for one character: the characters `str.strip()` removes. */
  predicate IsSpace(c: char)
  {
    c == ' ' || '\t' <= c <= '\r' || '\U{1C}' <= c <= '\U{1F}' || c == '\U{85}'
    || c == '\U{A0}' || c == '\U{1680}' || '\U{2000}' <= c <= '\U{200A}'
    || c == '\U{2028}' || c == '\U{2029}' || c == '\U{202F}' || c == '\U{205F}'
    || c == '\U{3000}'
  }

  /** An ASCII decimal digit. */
  predicate IsDigit(c: char)
  {
    '0' <= c <= '9'
  }

  predicate AllDigits(s: string)
  {
    forall i :: 0 <= i < |s| ==> IsDigit(s[i])
  }

  /** The number of whitespace characters at the front of `s`. */
  function LeadingSpaces(s: string): (n: nat)
    ensures n <= |s|
  {
    if |s| == 0 || !IsSpace(s[0]) then 0 else 1 + LeadingSpaces(s[1..])
  }

  /** The number of whitespace characters at the back of `s`. */
  function TrailingSpaces(s: string): (n: nat)
    ensures n <= |s|
  {
    if |s| == 0 || !IsSpace(s[|s| - 1]) then 0 else 1 + TrailingSpaces(s[..|s| - 1])
  }

  /** The front run is all whitespace and stops at a non-space or at the end. */
  lemma {:induction false} LeadingSpacesSpec(s: string)
    ensures forall i :: 0 <= i < LeadingSpaces(s) ==> IsSpace(s[i])
    ensures LeadingSpaces(s) < |s| ==> !IsSpace(s[LeadingSpaces(s)])
  {
    if |s| > 0 && IsSpace(s[0]) {
      LeadingSpacesSpec(s[1..]);
      assert forall i :: 1 <= i < |s| ==> s[i] == s[1..][i - 1];
    }
  }

  /** The back run is all whitespace and stops at a non-space or at the front. */
  lemma {:induction false} TrailingSpacesSpec(s: string)
    ensures forall i :: |s| - TrailingSpaces(s) <= i < |s| ==> IsSpace(s[i])
    ensures TrailingSpaces(s) < |s| ==> !IsSpace(s[|s| - TrailingSpaces(s) - 1])
  {
    if |s| > 0 && IsSpace(s[|s| - 1]) {
      TrailingSpacesSpec(s[..|s| - 1]);
      assert forall i :: 0 <= i < |s| - 1 ==> s[i] == s[..|s| - 1][i];
    }
  }

  /** `r` is what remains of `s` once the whitespace before position `a` and after
      position `a + |r|` is cut away. */
  ghost predicate CutAt(s: string, r: string, a: int)
  {
    && 0 <= a && a + |r| <= |s|
    && s[a..a + |r|] == r
    && (forall i :: 0 <= i < a ==> IsSpace(s[i]))
    && (forall i :: a + |r| <= i < |s| ==> IsSpace(s[i]))
  }

  /** Python's `s.strip()`: whitespace removed from both ends. */
  function Strip(s: string): (r: string)
    ensures |r| <= |s|
  {
    var a := LeadingSpaces(s);
    if a == |s| then
      ""
    else
      var b := TrailingSpaces(s);
      assert b < |s| - a by {
        LeadingSpacesSpec(s);
        TrailingSpacesSpec(s);
        assert !IsSpace(s[a]);
      }
      s[a..|s| - b]
  }

  /** The stripped text neither starts nor ends with whitespace, and it is what
      remains of `s` once only whitespace is cut from the two ends. */
  lemma StripSpec(s: string)
    ensures var r := Strip(s);
      && (|r| == 0 || (!IsSpace(r[0]) && !IsSpace(r[|r| - 1])))
      && exists a :: CutAt(s, r, a)
  {
    var a := LeadingSpaces(s);
    LeadingSpacesSpec(s);
    TrailingSpacesSpec(s);
    if a == |s| {
      assert CutAt(s, "", |s|);
    } else {
      assert !IsSpace(s[a]);
      assert CutAt(s, Strip(s), a);
    }
  }

  /** A string without whitespace at either end is its own strip. */
  lemma StripTrimmed(s: string)
    requires |s| == 0 || (!IsSpace(s[0]) && !IsSpace(s[|s| - 1]))
    ensures Strip(s) == s
  {
    if |s| > 0 {
      assert LeadingSpaces(s) == 0;
      assert TrailingSpaces(s) == 0;
      assert s[0..|s|] == s;
    }
  }

  /** Stripping a string that already carries no surrounding whitespace changes nothing,
      so a second `strip()` is a no-op. */
  lemma StripIdempotent(s: string)
    ensures Strip(Strip(s)) == Strip(s)
  {
    var r := Strip(s);
    StripSpec(s);
    if |r| > 0 {
      assert LeadingSpaces(r) == 0;
      assert TrailingSpaces(r) == 0;
    }
  }

  /** `sub` occurs in `s` starting at index `i`. */
  predicate OccursAt(s: string, sub: string, i: int)
  {
    0 <= i && i + |sub| <= |s| && s[i..i + |sub|] == sub
  }

  lemma OccursShift(s: string, sub: string)
    requires |s| > 0
    ensures forall i {:trigger OccursAt(s, sub, i)} :: 1 <= i ==>
      (OccursAt(s, sub, i) <==> OccursAt(s[1..], sub, i - 1))
  {
    forall i | 1 <= i
      ensures OccursAt(s, sub, i) <==> OccursAt(s[1..], sub, i - 1)
    {
      if i + |sub| <= |s| {
        assert s[1..][i - 1..i - 1 + |sub|] == s[i..i + |sub|];
      }
    }
  }

  /** Python's `sub in s` for strings: a substring test. */
  function Contains(s: string, sub: string): (r: bool)
    ensures r <==> exists i :: OccursAt(s, sub, i)
    decreases |s|
  {
    if |sub| > |s| then
      false
    else if s[..|sub|] == sub then
      assert OccursAt(s, sub, 0);
      true
    else
      OccursShift(s, sub);
      var r := Contains(s[1..], sub);
      assert !OccursAt(s, sub, 0);
      assert r ==> exists i :: OccursAt(s, sub, i) by {
        if r {
          var j :| OccursAt(s[1..], sub, j);
          assert OccursAt(s, sub, j + 1);
        }
      }
      r
  }

  /** The character of decimal digit `d`. */
  function DigitChar(d: nat): (c: char)
    requires d < 10
    ensures IsDigit(c)
  {
    ('0' as int + d) as char
  }

  /** The value of decimal digit character `c`. */
  function DigitValue(c: char): (d: nat)
    requires IsDigit(c)
    ensures d < 10 && DigitChar(d) == c
  {
    c as int - '0' as int
  }

  /** The number a string of decimal digits denotes (Python's `int(s)` on ASCII digits). */
  function Value(s: string): nat
    requires AllDigits(s)
  {
    if |s| == 0 then 0 else Value(s[..|s| - 1]) * 10 + DigitValue(s[|s| - 1])
  }

  function Pow10(w: nat): (p: nat)
    ensures p >= 1
  {
    if w == 0 then 1 else 10 * Pow10(w - 1)
  }

  /** The value of a string of `w` digits is below `10^w`. */
  lemma {:induction false} ValueBound(s: string)
    requires AllDigits(s)
    ensures Value(s) < Pow10(|s|)
  {
    if |s| > 0 {
      ValueBound(s[..|s| - 1]);
    }
  }

  /** strftime's zero padding: `n` rendered in exactly `w` decimal digits
      (`%02d` for `w == 2`, `%04d` for `w == 4`). */
  function Padded(n: nat, w: nat): (r: string)
    requires n < Pow10(w)
    ensures |r| == w
  {
    if w == 0 then "" else Padded(n / 10, w - 1) + [DigitChar(n % 10)]
  }

  /** The padded digits read back as the number. */
  lemma {:induction false} PaddedValue(n: nat, w: nat)
    requires n < Pow10(w)
    ensures AllDigits(Padded(n, w)) && Value(Padded(n, w)) == n
  {
    if w > 0 {
      var r := Padded(n, w);
      PaddedValue(n / 10, w - 1);
      assert r[..|r| - 1] == Padded(n / 10, w - 1);
    }
  }

  /** Python's `str(n)` for a natural number: decimal digits without padding. */
  function Decimal(n: nat): (r: string)
    ensures |r| >= 1 && AllDigits(r)
    ensures Value(r) == n
  {
    if n < 10 then
      [DigitChar(n)]
    else
      var r := Decimal(n / 10) + [DigitChar(n % 10)];
      assert r[..|r| - 1] == Decimal(n / 10);
      r
  }

  /** A three-digit number prints as its three digits. */
  lemma DecimalThreeDigits(n: nat)
    requires 100 <= n < 1000
    ensures Decimal(n) == [DigitChar(n / 100), DigitChar(n / 10 % 10), DigitChar(n % 10)]
  {
    assert Decimal(n / 100) == [DigitChar(n / 100)];
    assert n / 10 / 10 == n / 100;
  }

  /** The number of occurrences of `c` in `s`. */
  function CountChar(s: string, c: char): nat
  {
    if |s| == 0 then 0 else (if s[0] == c then 1 else 0) + CountChar(s[1..], c)
  }

  /** The pieces joined back with the separator: the inverse of `Split`. */
  function JoinWith(parts: seq<string>, sep: char): string
    requires |parts| >= 1
  {
    if |parts| == 1 then parts[0] else parts[0] + [sep] + JoinWith(parts[1..], sep)
  }

  /** Python's `s.split(sep)` for a one-character separator: the maximal
      separator-free pieces between the separators, empty pieces included. */
  function Split(s: string, sep: char): (parts: seq<string>)
    ensures |parts| >= 1
    ensures forall i :: 0 <= i < |parts| ==> sep !in parts[i]
    ensures JoinWith(parts, sep) == s
  {
    if |s| == 0 then
      [""]
    else
      var rest := Split(s[1..], sep);
      if s[0] == sep then
        var parts := [""] + rest;
        assert parts[1..] == rest;
        parts
      else
        var parts := [[s[0]] + rest[0]] + rest[1..];
        assert |parts| > 1 ==> parts[1..] == rest[1..];
        parts
  }

  /** `split` yields one piece more than there are separators. */
  lemma {:induction false} SplitCount(s: string, sep: char)
    ensures |Split(s, sep)| == CountChar(s, sep) + 1
  {
    if |s| > 0 {
      SplitCount(s[1..], sep);
    }
  }

  /** Splitting a join of separator-free pieces gives the pieces back. */
  lemma {:induction false} SplitJoin(parts: seq<string>, sep: char)
    requires |parts| >= 1
    requires forall i :: 0 <= i < |parts| ==> sep !in parts[i]
    ensures Split(JoinWith(parts, sep), sep) == parts
    decreases |parts|, |parts[0]|
  {
    var s := JoinWith(parts, sep);
    if |parts| == 1 {
      SplitFree(parts[0], sep);
    } else if |parts[0]| == 0 {
      assert s == [sep] + JoinWith(parts[1..], sep);
      assert s[1..] == JoinWith(parts[1..], sep);
      SplitJoin(parts[1..], sep);
    } else {
      var p := parts[0];
      var shorter := [p[1..]] + parts[1..];
      assert shorter[1..] == parts[1..];
      assert s[1..] == JoinWith(shorter, sep);
      SplitJoin(shorter, sep);
      assert p[0] != sep by {
        assert p[0] in p;
      }
      assert [p[0]] + p[1..] == p;
    }
  }

  /** A separator-free string splits into itself alone. */
  lemma {:induction false} SplitFree(s: string, sep: char)
    requires sep !in s
    ensures Split(s, sep) == [s]
  {
    if |s| > 0 {
      SplitFree(s[1..], sep);
      assert s[0] != sep by {
        assert s[0] in s;
      }
      assert [s[0]] + s[1..] == s;
    }
  }

  /** Python's `s.replace(c, "")`: `s` with every `c` removed, the rest in order. */
  function Remove(s: string, c: char): (r: string)
    ensures c !in r
  {
    if |s| == 0 then ""
    else if s[0] == c then Remove(s[1..], c)
    else [s[0]] + Remove(s[1..], c)
  }

  /** Removing a character distributes over concatenation. */
  lemma {:induction false} RemoveAppend(a: string, b: string, c: char)
    ensures Remove(a + b, c) == Remove(a, c) + Remove(b, c)
  {
    if |a| > 0 {
      assert (a + b)[1..] == a[1..] + b;
      RemoveAppend(a[1..], b, c);
    } else {
      assert a + b == b;
    }
  }

  /** Removing a character a string does not hold leaves it unchanged. */
  lemma {:induction false} RemoveAbsent(s: string, c: char)
    requires c !in s
    ensures Remove(s, c) == s
  {
    if |s| > 0 {
      assert s[0] in s;
      assert s[1..] == s[1..];
      assert forall i :: 0 <= i < |s[1..]| ==> s[1..][i] == s[i + 1];
      RemoveAbsent(s[1..], c);
      assert [s[0]] + s[1..] == s;
    }
  }

  lemma DigitsConcat(a: string, b: string)
    requires AllDigits(a) && AllDigits(b)
    ensures AllDigits(a + b)
  {
    assert forall i :: 0 <= i < |a + b| ==> (a + b)[i] == if i < |a| then a[i] else b[i - |a|];
  }

  /** A string of digits holds no space. */
  lemma DigitsNoSpace(s: string)
    requires AllDigits(s)
    ensures ' ' !in s
  {
  }
}
