/** String handling the application relies on: digit extraction for currency inputs
    (`replace(/\D/g, '')` then `Number(...) / 100`), `toFixed(2)`, `toString()` of an amount,
    `toLowerCase`, `includes`, `trim` and `split`. */
module Text {
  import opened Seqs

  predicate IsDigit(c: char)
  {
    '0' <= c <= '9'
  }

  predicate AllDigits(s: string)
  {
    forall i :: 0 <= i < |s| ==> IsDigit(s[i])
  }

  function DigitValue(c: char): (v: nat)
    requires IsDigit(c)
    ensures v < 10
  {
    (c as int) - ('0' as int)
  }

  function DigitChar(v: nat): (c: char)
    requires v < 10
    ensures IsDigit(c) && DigitValue(c) == v
  {
    ('0' as int + v) as char
  }

  /** `value.replace(/\D/g, '')`: the digits of `s`, in order. */
  function DigitsOnly(s: string): (r: string)
    ensures AllDigits(r)
  {
    Filter(s, IsDigit)
  }

  /** `Number(ds)` for a string of decimal digits; the empty string reads as 0. */
  function NumberValue(ds: string): nat
    requires AllDigits(ds)
  {
    if ds == [] then 0 else 10 * NumberValue(ds[..|ds| - 1]) + DigitValue(ds[|ds| - 1])
  }

  /** What every currency input stores: the digits typed so far, read as a number of cents. */
  function CentsFromInput(s: string): nat
  {
    NumberValue(DigitsOnly(s))
  }

  /** The digits at the start of `s`. */
  function LeadingDigits(s: string): (r: string)
    ensures AllDigits(r) && |r| <= |s| && r == s[..|r|]
    ensures |r| == |s| || !IsDigit(s[|r|])
  {
    if s != [] && IsDigit(s[0]) then [s[0]] + LeadingDigits(s[1..]) else []
  }

  lemma {:induction false} LeadingDigitsAppend(a: string, t: string)
    requires AllDigits(a)
    requires t == [] || !IsDigit(t[0])
    ensures LeadingDigits(a + t) == a
  {
    if a != [] {
      assert (a + t)[1..] == a[1..] + t;
      LeadingDigitsAppend(a[1..], t);
    }
  }

  /** Typing a digit shifts the amount one decimal place left and adds the digit as the new
      last cent; typing anything else leaves the amount unchanged. */
  lemma CentsAppendChar(s: string, c: char)
    ensures CentsFromInput(s + [c]) == if IsDigit(c) then 10 * CentsFromInput(s) + DigitValue(c) else CentsFromInput(s)
  {
    FilterAppend(s, [c], IsDigit);
    assert [c][..0] == [];
    var d := DigitsOnly(s);
    if IsDigit(c) {
      assert (d + [c])[..|d + [c]| - 1] == d;
    } else {
      assert d + [] == d;
    }
  }

  lemma {:induction false} NumberValueAppend2(a: string, b: string)
    requires AllDigits(a) && AllDigits(b) && |b| == 2
    ensures AllDigits(a + b)
    ensures NumberValue(a + b) == 100 * NumberValue(a) + NumberValue(b)
  {
    var ab := a + b;
    var a0 := a + [b[0]];
    assert ab[..|ab| - 1] == a0;
    assert a0[..|a0| - 1] == a;
    assert NumberValue(a0) == 10 * NumberValue(a) + DigitValue(b[0]);
    assert NumberValue(ab) == 10 * NumberValue(a0) + DigitValue(b[1]);
    assert b[..1] == [b[0]] && [b[0]][..0] == [];
    assert NumberValue([b[0]]) == DigitValue(b[0]);
    assert NumberValue(b) == 10 * DigitValue(b[0]) + DigitValue(b[1]);
  }

  /** Decimal digits of `n` without leading zeros (`String(n)` for an integer). */
  function NatToString(n: nat): (r: string)
    ensures |r| >= 1 && AllDigits(r)
    ensures NumberValue(r) == n
  {
    if n < 10 then
      assert [DigitChar(n)][..0] == [];
      [DigitChar(n)]
    else
      var r := NatToString(n / 10) + [DigitChar(n % 10)];
      assert r[..|r| - 1] == NatToString(n / 10);
      r
  }

  /** `(cents / 100).toFixed(2)` for a non-negative amount: whole units, a dot, two decimals. */
  function FormatCents(cents: nat): (r: string)
    ensures |r| >= 4 && r[|r| - 3] == '.'
  {
    NatToString(cents / 100) + "." + [DigitChar(cents % 100 / 10), DigitChar(cents % 10)]
  }

  /** The currency inputs' change handler: `(Number(value.replace(/\D/g, '')) / 100).toFixed(2)`.
      The digits typed, read as one integer, are the amount in cents; anything else is ignored,
      and an input without digits reads as zero. */
  function AmountInput(raw: string): (shown: string)
    ensures CentsFromInput(shown) == CentsFromInput(raw)
  {
    CentsRoundTrip(CentsFromInput(raw));
    FormatCents(CentsFromInput(raw))
  }

  /** `(cents / 100).toFixed(2)` for any amount: a minus sign before a negative one. */
  function ToFixed2(cents: int): string
  {
    if cents < 0 then "-" + FormatCents(-cents) else FormatCents(cents)
  }

  /** `parseFloat` in cents, for the strings the amount fields hold: an optional minus sign,
      then digits with a decimal point before the last two. */
  function ParseFixed2(s: string): int
  {
    if |s| > 0 && s[0] == '-' then 0 - CentsFromInput(s[1..]) else CentsFromInput(s)
  }

  /** An amount written to two decimals reads back as itself, whatever its sign. */
  lemma ToFixed2RoundTrip(cents: int)
    ensures ParseFixed2(ToFixed2(cents)) == cents
  {
    if cents < 0 {
      var n: nat := -cents;
      assert ToFixed2(cents) == "-" + FormatCents(n);
      NegativeRoundTrip(n);
    } else {
      assert ToFixed2(cents) == FormatCents(cents);
      UnsignedRoundTrip(cents);
    }
  }

  lemma NegativeRoundTrip(n: nat)
    ensures ParseFixed2("-" + FormatCents(n)) == 0 - n
  {
    ParseNegative(FormatCents(n));
    CentsRoundTrip(n);
  }

  lemma UnsignedRoundTrip(n: nat)
    ensures ParseFixed2(FormatCents(n)) == n
  {
    FormatCentsLeadingDigit(n);
    ParseUnsigned(FormatCents(n));
    CentsRoundTrip(n);
  }

  lemma ParseUnsigned(r: string)
    requires |r| > 0 && IsDigit(r[0])
    ensures ParseFixed2(r) == CentsFromInput(r)
  {
  }

  lemma ParseNegative(r: string)
    ensures ParseFixed2("-" + r) == 0 - CentsFromInput(r)
  {
    assert ("-" + r)[1..] == r;
  }

  lemma FormatCentsLeadingDigit(cents: nat)
    ensures IsDigit(FormatCents(cents)[0])
  {
    var n := NatToString(cents / 100);
    assert FormatCents(cents)[0] == n[0];
  }

  /** What a currency input's change handler displays reads back as the cents typed. */
  lemma AmountInputParses(raw: string)
    ensures ParseFixed2(AmountInput(raw)) == CentsFromInput(raw)
    ensures AmountInput(raw) == ToFixed2(CentsFromInput(raw))
  {
    ToFixed2RoundTrip(CentsFromInput(raw));
  }

  /** Removing the non-digits from a dot leaves nothing. */
  lemma DigitsOnlyDot()
    ensures DigitsOnly(".") == []
  {
    assert "."[..0] == [];
  }

  lemma DigitsOnlyAppend(a: string, b: string)
    ensures DigitsOnly(a + b) == DigitsOnly(a) + DigitsOnly(b)
  {
    FilterAppend(a, b, IsDigit);
  }

  /** The currency inputs read their own display back: the amount shown as `toFixed(2)` is the
      amount the next keystroke starts from. */
  lemma CentsRoundTrip(cents: nat)
    ensures CentsFromInput(FormatCents(cents)) == cents
  {
    var whole := NatToString(cents / 100);
    var tail := [DigitChar(cents % 100 / 10), DigitChar(cents % 10)];
    var f := FormatCents(cents);
    assert f == (whole + ".") + tail;
    DigitsOnlyAppend(whole + ".", tail);
    DigitsOnlyAppend(whole, ".");
    DigitsOnlyDot();
    CentsFromDigits(whole);
    CentsFromDigits(tail);
    assert DigitsOnly(f) == whole + tail;
    NumberValueAppend2(whole, tail);
    TwoDigits(cents % 100 / 10, cents % 10);
    CentsDecompose(cents);
  }

  lemma CentsDecompose(n: nat)
    ensures 100 * (n / 100) + 10 * (n % 100 / 10) + n % 10 == n
  {
    var q, r := n / 100, n % 100;
    var h, l := r / 10, r % 10;
    assert n == 100 * q + r;
    assert r == 10 * h + l;
    LastDigit(n, 10 * q + h, l);
  }

  lemma LastDigit(n: int, k: int, l: int)
    requires n == 10 * k + l && 0 <= l < 10
    ensures n % 10 == l
  {
  }

  lemma TwoDigits(h: nat, l: nat)
    requires h < 10 && l < 10
    ensures NumberValue([DigitChar(h), DigitChar(l)]) == 10 * h + l
  {
    var t := [DigitChar(h), DigitChar(l)];
    assert t[..1] == [t[0]] && [t[0]][..0] == [];
    assert NumberValue([t[0]]) == h;
    assert NumberValue(t) == 10 * NumberValue(t[..1]) + DigitValue(t[1]);
  }

  /** Every digit string is its own digit extraction. */
  lemma CentsFromDigits(ds: string)
    requires AllDigits(ds)
    ensures DigitsOnly(ds) == ds
    ensures CentsFromInput(ds) == NumberValue(ds)
  {
    FilterAll(ds, IsDigit);
  }

  /** `String(x)` for an amount of `cents` hundredths: JavaScript's shortest decimal form,
      with no trailing zeros in the fraction and no fraction at all for whole amounts. */
  function AmountToString(cents: int): string
  {
    var a := if cents < 0 then -cents else cents;
    var frac :=
      if a % 100 == 0 then ""
      else if a % 10 == 0 then "." + [DigitChar(a % 100 / 10)]
      else "." + [DigitChar(a % 100 / 10), DigitChar(a % 10)];
    (if cents < 0 then "-" else "") + NatToString(a / 100) + frac
  }

  /** `String.prototype.toLowerCase` on the basic Latin and Latin-1 letters. */
  function LowerChar(c: char): char
  {
    if 'A' <= c <= 'Z' || ('\U{C0}' <= c <= '\U{DE}' && c != '\U{D7}') then (c as int + 32) as char else c
  }

  function Lower(s: string): (r: string)
    ensures |r| == |s|
    ensures forall i :: 0 <= i < |s| ==> r[i] == LowerChar(s[i])
  {
    seq(|s|, i requires 0 <= i < |s| => LowerChar(s[i]))
  }

  /** Lower-casing twice is lower-casing once. */
  lemma LowerIdempotent(s: string)
    ensures Lower(Lower(s)) == Lower(s)
  {
    forall i | 0 <= i < |s| ensures LowerChar(LowerChar(s[i])) == LowerChar(s[i]) {
    }
  }

  predicate StartsWith(s: string, prefix: string)
  {
    |prefix| <= |s| && s[..|prefix|] == prefix
  }

  predicate OccursAt(s: string, sub: string, i: int)
  {
    0 <= i && i + |sub| <= |s| && s[i..i + |sub|] == sub
  }

  /** `s.includes(sub)`: `sub` occurs somewhere in `s` (the empty string occurs everywhere). */
  function Contains(s: string, sub: string): (b: bool)
    ensures b <==> exists i :: OccursAt(s, sub, i)
  {
    if StartsWith(s, sub) then
      assert OccursAt(s, sub, 0);
      true
    else if s == [] then
      assert forall i :: !OccursAt(s, sub, i);
      false
    else
      var b := Contains(s[1..], sub);
      assert forall i | i >= 0 :: OccursAt(s[1..], sub, i) <==> OccursAt(s, sub, i + 1) by {
        forall i | i >= 0 ensures OccursAt(s[1..], sub, i) <==> OccursAt(s, sub, i + 1) {
          OccursShift(s, sub, i);
        }
      }
      assert !OccursAt(s, sub, 0);
      assert b ==> OccursAt(s[1..], sub, OccursWitness(s[1..], sub)) && OccursAt(s, sub, OccursWitness(s[1..], sub) + 1);
      assert (exists i :: OccursAt(s, sub, i)) ==> (exists i :: OccursAt(s[1..], sub, i)) by {
        if exists i :: OccursAt(s, sub, i) {
          var i :| OccursAt(s, sub, i);
          assert OccursAt(s[1..], sub, i - 1);
        }
      }
      b
  }

  lemma OccursShift(s: string, sub: string, i: int)
    requires s != [] && i >= 0
    ensures OccursAt(s[1..], sub, i) <==> OccursAt(s, sub, i + 1)
  {
    if 0 <= i && i + |sub| <= |s| - 1 {
      assert s[1..][i..i + |sub|] == s[i + 1..i + 1 + |sub|];
    }
  }

  ghost function OccursWitness(s: string, sub: string): int
  {
    if exists i :: OccursAt(s, sub, i) then var i :| OccursAt(s, sub, i); i else 0
  }

  /** Whatever is in a string is in any string that ends with it. */
  lemma ContainsSuffix(pre: string, s: string, sub: string)
    requires Contains(s, sub)
    ensures Contains(pre + s, sub)
  {
    var i :| OccursAt(s, sub, i);
    assert (pre + s)[|pre| + i..|pre| + i + |sub|] == s[i..i + |sub|];
    assert OccursAt(pre + s, sub, |pre| + i);
  }

  /** White space and line terminators as `String.prototype.trim` removes them. */
  predicate IsSpace(c: char)
  {
    || c == ' ' || c == '\t' || c == '\n' || c == '\r' || c == '\U{B}' || c == '\U{C}'
    || c == '\U{A0}' || c == '\U{1680}' || ('\U{2000}' <= c <= '\U{200A}')
    || c == '\U{2028}' || c == '\U{2029}' || c == '\U{202F}' || c == '\U{205F}'
    || c == '\U{3000}' || c == '\U{FEFF}'
  }

  predicate IsBlank(s: string)
  {
    forall i :: 0 <= i < |s| ==> IsSpace(s[i])
  }

  /** The index of the first character at or after `i` that is not white space. */
  function SkipSpaces(s: string, i: nat): (j: nat)
    requires i <= |s|
    ensures i <= j <= |s|
    ensures forall k :: i <= k < j ==> IsSpace(s[k])
    ensures j == |s| || !IsSpace(s[j])
    decreases |s| - i
  {
    if i < |s| && IsSpace(s[i]) then SkipSpaces(s, i + 1) else i
  }

  /** The index just after the last character before `j`, and not before `lo`, that is not
      white space. */
  function SkipSpacesBack(s: string, lo: nat, j: nat): (i: nat)
    requires lo <= j <= |s|
    ensures lo <= i <= j
    ensures forall k :: i <= k < j ==> IsSpace(s[k])
    ensures i == lo || !IsSpace(s[i - 1])
    decreases j
  {
    if j > lo && IsSpace(s[j - 1]) then SkipSpacesBack(s, lo, j - 1) else j
  }

  /** `s.trimStart()`: `s` without its leading white space. */
  function TrimStart(s: string): (r: string)
    ensures r == [] || !IsSpace(r[0])
  {
    s[SkipSpaces(s, 0)..]
  }

  /** `s.trim()`: `s` without its leading and trailing white space. */
  function Trim(s: string): (r: string)
    ensures exists i, j :: 0 <= i <= j <= |s| && r == s[i..j]
              && (forall k :: 0 <= k < i ==> IsSpace(s[k])) && (forall k :: j <= k < |s| ==> IsSpace(s[k]))
    ensures r == [] || (!IsSpace(r[0]) && !IsSpace(r[|r| - 1]))
  {
    var i := SkipSpaces(s, 0);
    var j := SkipSpacesBack(s, i, |s|);
    assert i < j ==> !IsSpace(s[j - 1]);
    s[i..j]
  }

  /** From `i` on, a blank string has nothing but white space to skip. */
  lemma {:induction false} SkipSpacesBlank(s: string, i: nat)
    requires i <= |s| && IsBlank(s)
    ensures SkipSpaces(s, i) == |s|
    decreases |s| - i
  {
    if i < |s| {
      SkipSpacesBlank(s, i + 1);
    }
  }

  /** `!s.trim()` holds exactly for the strings made only of white space. */
  lemma TrimEmptyIffBlank(s: string)
    ensures Trim(s) == [] <==> IsBlank(s)
  {
    if IsBlank(s) {
      SkipSpacesBlank(s, 0);
    }
    if Trim(s) == [] {
      var i := SkipSpaces(s, 0);
      var j := SkipSpacesBack(s, i, |s|);
      assert i == j;
    }
  }

  /** `s.split(sep)` for a one-character separator: the pieces between separators, at least one. */
  function Split(s: string, sep: char): (parts: seq<string>)
    ensures |parts| >= 1
    ensures forall i :: 0 <= i < |parts| ==> sep !in parts[i]
  {
    if s == [] then [[]]
    else if s[0] == sep then [[]] + Split(s[1..], sep)
    else
      var rest := Split(s[1..], sep);
      [[s[0]] + rest[0]] + rest[1..]
  }

  /** `parts.join(sep)`. */
  function Join(parts: seq<string>, sep: char): string
    requires |parts| >= 1
  {
    if |parts| == 1 then parts[0] else parts[0] + [sep] + Join(parts[1..], sep)
  }

  /** Joining the pieces back gives the original string. */
  lemma {:induction false} JoinSplit(s: string, sep: char)
    ensures Join(Split(s, sep), sep) == s
  {
    if s != [] {
      JoinSplit(s[1..], sep);
      var rest := Split(s[1..], sep);
      if s[0] == sep {
        assert [[]] + rest == Split(s, sep);
        assert Split(s, sep)[1..] == rest;
        assert s == [] + [sep] + s[1..];
      } else {
        var parts := Split(s, sep);
        assert parts[1..] == rest[1..];
        if |rest| == 1 {
          assert s == [s[0]] + s[1..];
        } else {
          assert s[1..] == rest[0] + [sep] + Join(rest[1..], sep);
          assert s == [s[0]] + s[1..];
        }
      }
    }
  }

  /** The first piece of `a + b` is `a` when `a` has no separator and `b` starts with one. */
  lemma {:induction false} SplitBeforeSeparator(a: string, b: string, sep: char)
    requires sep !in a && (b == [] || b[0] == sep)
    ensures Split(a + b, sep)[0] == a
  {
    if a != [] {
      assert (a + b)[0] == a[0];
      assert (a + b)[1..] == a[1..] + b;
      SplitBeforeSeparator(a[1..], b, sep);
      assert a == [a[0]] + a[1..];
    } else {
      assert a + b == b;
    }
  }

  /** `s.split(sep)[0]` is the text before the first separator (all of `s` when there is none). */
  lemma SplitFirst(s: string, sep: char)
    ensures StartsWith(s, Split(s, sep)[0])
    ensures sep !in Split(s, sep)[0]
    ensures |Split(s, sep)[0]| < |s| ==> s[|Split(s, sep)[0]|] == sep
  {
    JoinSplit(s, sep);
    var parts := Split(s, sep);
    if |parts| > 1 {
      assert s == parts[0] + [sep] + Join(parts[1..], sep);
    }
  }
}
