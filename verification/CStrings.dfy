/** The C library functions on strings that the programs of the repository rely on: strtok,
    atoi, printing a number with %d, and strcmp. A string here is its characters before the NUL. */
module CStrings {

  datatype Option<+T> = None | Some(value: T)

  // ----- strtok

  /** The length of the longest prefix without delimiters. */
  function WordLength(s: string, delims: string): (n: nat)
    ensures n <= |s|
    ensures forall i :: 0 <= i < n ==> s[i] !in delims
    ensures n < |s| ==> s[n] in delims
  {
    if s == [] || s[0] in delims then 0 else 1 + WordLength(s[1..], delims)
  }

  /** What successive calls of strtok return. */
  function Tokens(s: string, delims: string): seq<string>
    decreases |s|
  {
    if s == [] then []
    else if s[0] in delims then Tokens(s[1..], delims)
    else
      var n := WordLength(s, delims);
      [s[..n]] + Tokens(s[n..], delims)
  }

  predicate IsWord(w: string, delims: string) {
    w != [] && forall i :: 0 <= i < |w| ==> w[i] !in delims
  }

  predicate IsBlank(b: string, delims: string) {
    forall i :: 0 <= i < |b| ==> b[i] in delims
  }

  lemma {:induction false} WordLengthOf(w: string, rest: string, delims: string)
    requires forall i :: 0 <= i < |w| ==> w[i] !in delims
    requires rest == [] || rest[0] in delims
    ensures WordLength(w + rest, delims) == |w|
  {
    if w == [] {
      assert w + rest == rest;
    } else {
      assert (w + rest)[1..] == w[1..] + rest;
      WordLengthOf(w[1..], rest, delims);
    }
  }

  lemma TokensOfWord(w: string, rest: string, delims: string)
    requires IsWord(w, delims) && (rest == [] || rest[0] in delims)
    ensures Tokens(w + rest, delims) == [w] + Tokens(rest, delims)
  {
    WordLengthOf(w, rest, delims);
    assert (w + rest)[..|w|] == w && (w + rest)[|w|..] == rest;
  }

  lemma {:induction false} TokensOfBlank(b: string, rest: string, delims: string)
    requires IsBlank(b, delims)
    ensures Tokens(b + rest, delims) == Tokens(rest, delims)
  {
    if b == [] {
      assert b + rest == rest;
    } else {
      assert (b + rest)[1..] == b[1..] + rest;
      TokensOfBlank(b[1..], rest, delims);
    }
  }

  /** Tokens are never empty and contain no delimiter. */
  lemma {:induction false} TokensAreWords(s: string, delims: string)
    ensures forall i :: 0 <= i < |Tokens(s, delims)| ==> IsWord(Tokens(s, delims)[i], delims)
    decreases |s|
  {
    if s != [] {
      if s[0] in delims {
        TokensAreWords(s[1..], delims);
      } else {
        TokensAreWords(s[WordLength(s, delims)..], delims);
      }
    }
  }

  // ----- %d and atoi

  function Digit(d: nat): char
    requires d < 10
  {
    '0' + d as char
  }

  predicate IsDigit(c: char) { '0' <= c <= '9' }

  function DigitValue(c: char): nat
    requires IsDigit(c)
  {
    c as int - '0' as int
  }

  function Decimal(n: nat): (s: string)
    ensures s != [] && IsDigit(s[0]) && (n > 0 ==> s[0] != '0')
  {
    if n < 10 then [Digit(n)] else Decimal(n / 10) + [Digit(n % 10)]
  }

  predicate IsSpace(c: char) { c in " \t\n\r" || c as int == 11 || c as int == 12 }

  function SkipSpace(s: string): string {
    if s != [] && IsSpace(s[0]) then SkipSpace(s[1..]) else s
  }

  function DigitsFrom(s: string, acc: nat): nat {
    if s != [] && IsDigit(s[0]) then DigitsFrom(s[1..], 10 * acc + DigitValue(s[0])) else acc
  }

  function Atoi(s: string): int {
    var t := SkipSpace(s);
    if t != [] && t[0] == '-' then 0 - (DigitsFrom(t[1..], 0) as int)
    else if t != [] && t[0] == '+' then DigitsFrom(t[1..], 0)
    else DigitsFrom(t, 0)
  }

  /** The ten digits, and the most significant ones first. */
  lemma DecimalReads(n: nat)
    ensures n < 10 ==> Decimal(n) == ["0123456789"[n]]
    ensures n >= 10 ==> Decimal(n) == Decimal(n / 10) + Decimal(n % 10)
  {
  }

  lemma {:induction false} DigitsOfDecimal(n: nat, rest: string)
    ensures DigitsFrom(Decimal(n) + rest, 0) == DigitsFrom(rest, n)
  {
    if n < 10 {
      assert ([Digit(n)] + rest)[1..] == rest;
    } else {
      var d := [Digit(n % 10)];
      DigitsOfDecimal(n / 10, d + rest);
      assert Decimal(n) + rest == Decimal(n / 10) + (d + rest);
      assert (d + rest)[1..] == rest;
    }
  }

  /** atoi reads back a printed number, whatever non-digit follows it. */
  lemma AtoiOfDecimal(n: nat, rest: string)
    requires rest == [] || !IsDigit(rest[0])
    ensures Atoi(Decimal(n) + rest) == n
  {
    assert (Decimal(n) + rest)[0] == Decimal(n)[0];
    DigitsOfDecimal(n, rest);
  }

  lemma {:induction false} SkipSpaceOf(blank: string, rest: string)
    requires forall i :: 0 <= i < |blank| ==> IsSpace(blank[i])
    ensures SkipSpace(blank + rest) == SkipSpace(rest)
  {
    if blank == [] {
      assert blank + rest == rest;
    } else {
      assert (blank + rest)[1..] == blank[1..] + rest;
      SkipSpaceOf(blank[1..], rest);
    }
  }

  lemma DigitsAlone(n: nat, rest: string)
    requires rest == [] || !IsDigit(rest[0])
    ensures DigitsFrom(Decimal(n) + rest, 0) == n && IsDigit((Decimal(n) + rest)[0])
  {
    assert (Decimal(n) + rest)[0] == Decimal(n)[0];
    DigitsOfDecimal(n, rest);
  }

  /** Behind white space atoi reads a number up to the first other character. */
  lemma AtoiOfSpaced(blank: string, n: nat, rest: string)
    requires forall i :: 0 <= i < |blank| ==> blank[i] == ' ' || 9 <= blank[i] as int <= 13
    requires rest == [] || !IsDigit(rest[0])
    ensures Atoi(blank + (Decimal(n) + rest)) == n
  {
    DigitsAlone(n, rest);
    SkipSpaceOf(blank, Decimal(n) + rest);
  }

  /** And a sign before it. */
  lemma AtoiOfSigned(blank: string, sign: char, n: nat, rest: string)
    requires forall i :: 0 <= i < |blank| ==> blank[i] == ' ' || 9 <= blank[i] as int <= 13
    requires (sign == '+' || sign == '-') && (rest == [] || !IsDigit(rest[0]))
    ensures Atoi(blank + ([sign] + (Decimal(n) + rest))) == if sign == '+' then n as int else 0 - n as int
  {
    DigitsAlone(n, rest);
    SkipSpaceOf(blank, [sign] + (Decimal(n) + rest));
    assert ([sign] + (Decimal(n) + rest))[1..] == Decimal(n) + rest;
  }

  /** And it yields 0 where there is no number. */
  lemma AtoiOfOther(blank: string, rest: string)
    requires forall i :: 0 <= i < |blank| ==> blank[i] == ' ' || 9 <= blank[i] as int <= 13
    requires rest == [] || (rest[0] != ' ' && !(9 <= rest[0] as int <= 13))
    requires rest == [] || (!IsDigit(rest[0]) && rest[0] != '+' && rest[0] != '-')
    ensures Atoi(blank + rest) == 0
  {
    SkipSpaceOf(blank, rest);
  }

  function Pow10(k: nat): nat { if k == 0 then 1 else 10 * Pow10(k - 1) }

  lemma {:induction false} DecimalLength(n: nat, k: nat)
    requires k > 0 && n < Pow10(k)
    ensures |Decimal(n)| <= k
  {
    if n >= 10 {
      DecimalLength(n / 10, k - 1);
    }
  }

  lemma {:induction false} DecimalIsDigits(n: nat)
    ensures forall i :: 0 <= i < |Decimal(n)| ==> IsDigit(Decimal(n)[i])
  {
    if n >= 10 {
      DecimalIsDigits(n / 10);
    }
  }

  // ----- strcmp

  /** The sign of strcmp: negative, zero or positive. */
  function StrCmp(a: string, b: string): int {
    if a == [] && b == [] then 0
    else if a == [] then -1
    else if b == [] then 1
    else if a[0] < b[0] then -1
    else if a[0] > b[0] then 1
    else StrCmp(a[1..], b[1..])
  }

  lemma {:induction false} StrCmpZero(a: string, b: string)
    ensures StrCmp(a, b) == 0 <==> a == b
    ensures StrCmp(a, b) == -StrCmp(b, a)
  {
    if a != [] && b != [] {
      StrCmpZero(a[1..], b[1..]);
      assert a == [a[0]] + a[1..] && b == [b[0]] + b[1..];
    }
  }

  lemma {:induction false} StrCmpTransitive(a: string, b: string, c: string)
    requires StrCmp(a, b) < 0 && StrCmp(b, c) < 0
    ensures StrCmp(a, c) < 0
  {
    if a != [] && b != [] && c != [] && a[0] == b[0] == c[0] {
      StrCmpTransitive(a[1..], b[1..], c[1..]);
    }
  }

  /** What strcmp compares: the first difference decides, and a string comes before its
      continuations. */
  predicate ComesFirst(a: string, b: string, k: nat) {
    && k <= |a| && k < |b| && a[..k] == b[..k]
    && (k == |a| || a[k] < b[k])
  }

  lemma {:induction false} ComesFirstCons(a: string, b: string, k: nat)
    requires a != [] && b != []
    ensures ComesFirst(a, b, k + 1) <==> a[0] == b[0] && ComesFirst(a[1..], b[1..], k)
  {
    if k < |a| && k + 1 < |b| {
      assert a[..k + 1] == [a[0]] + a[1..][..k] && b[..k + 1] == [b[0]] + b[1..][..k];
    }
  }

  lemma {:induction false} StrCmpIff(a: string, b: string)
    ensures StrCmp(a, b) < 0 <==> exists k: nat :: ComesFirst(a, b, k)
  {
    if a != [] && b != [] {
      StrCmpIff(a[1..], b[1..]);
      if k: nat :| ComesFirst(a, b, k) {
        if k > 0 {
          ComesFirstCons(a, b, k - 1);
        }
      }
      if a[0] < b[0] {
        assert ComesFirst(a, b, 0);
      }
      if k: nat :| a[0] == b[0] && ComesFirst(a[1..], b[1..], k) {
        ComesFirstCons(a, b, k);
        assert ComesFirst(a, b, k + 1);
      }
    } else if b != [] {
      assert ComesFirst(a, b, 0);
    }
  }

  // ----- searching

  /** The index of the first `w`, or the length if there is none. */
  function First(words: seq<string>, w: string): (i: nat)
    ensures i <= |words|
    ensures i < |words| ==> words[i] == w
    ensures forall k :: 0 <= k < i ==> words[k] != w
  {
    if words == [] || words[0] == w then 0 else 1 + First(words[1..], w)
  }

  lemma {:induction false} FirstIs(words: seq<string>, w: string, i: nat)
    requires i <= |words| && (i < |words| ==> words[i] == w)
    requires forall k :: 0 <= k < i ==> words[k] != w
    ensures First(words, w) == i
  {
    if i > 0 {
      FirstIs(words[1..], w, i - 1);
    }
  }
}
