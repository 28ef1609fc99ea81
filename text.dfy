/**
 * The pieces of Python's str behaviour that the helper relies on:
 * str.strip(), str.split(sep) and int(str) restricted to an optional sign
 * and ASCII decimal digits, plus str(int) as the inverse of int().
 */
module Text {
  import opened Wrappers

  /** Python's str.isspace(): the characters str.strip() removes. */
  predicate IsSpace(c: char) {
    || c == ' '
    || ('\t' <= c <= '\r')
    || ('\U{1c}' <= c <= '\U{1f}')
    || c == '\U{85}' || c == '\U{a0}' || c == '\U{1680}'
    || ('\U{2000}' <= c <= '\U{200a}')
    || c == '\U{2028}' || c == '\U{2029}' || c == '\U{202f}' || c == '\U{205f}' || c == '\U{3000}'
  }

  /**
   * The whitespace int() skips around a number: CPython turns every
   * non-ASCII whitespace character into a space and then skips only ASCII
   * whitespace, so the separators U+001C..U+001F, which isspace() accepts,
   * make int() raise.
   */
  predicate IsIntSpace(c: char) {
    IsSpace(c) && !('\U{1c}' <= c <= '\U{1f}')
  }

  /** The two whitespace sets: the one str.strip() removes and the one int() skips. */
  datatype Blanks = StripBlanks | IntBlanks

  predicate IsBlank(c: char, b: Blanks) {
    match b
    case StripBlanks => IsSpace(c)
    case IntBlanks => IsIntSpace(c)
  }

  /** s without its leading blanks. */
  function TrimLeft(s: string, b: Blanks): string {
    if |s| > 0 && IsBlank(s[0], b) then TrimLeft(s[1..], b) else s
  }

  /** TrimLeft removes a prefix of blanks and stops at the first other character. */
  lemma {:induction false} TrimLeftSpec(s: string, b: Blanks)
    ensures var r := TrimLeft(s, b);
      && |r| <= |s| && r == s[|s| - |r|..]
      && (forall i :: 0 <= i < |s| - |r| ==> IsBlank(s[i], b))
      && (r == [] || !IsBlank(r[0], b))
  {
    if |s| > 0 && IsBlank(s[0], b) {
      var rest := s[1..];
      TrimLeftSpec(rest, b);
      var r := TrimLeft(rest, b);
      assert rest[|rest| - |r|..] == s[|s| - |r|..];
      forall i | 0 <= i < |s| - |r|
        ensures IsBlank(s[i], b)
      {
        if i > 0 {
          assert s[i] == rest[i - 1];
        }
      }
    }
  }

  /** s without its trailing blanks. */
  function TrimRight(s: string, b: Blanks): string {
    if |s| > 0 && IsBlank(s[|s| - 1], b) then TrimRight(s[..|s| - 1], b) else s
  }

  /** TrimRight removes a suffix of blanks and stops at the last other character. */
  lemma {:induction false} TrimRightSpec(s: string, b: Blanks)
    ensures var r := TrimRight(s, b);
      && |r| <= |s| && r == s[..|r|]
      && (forall i :: |r| <= i < |s| ==> IsBlank(s[i], b))
      && (r == [] || !IsBlank(r[|r| - 1], b))
  {
    if |s| > 0 && IsBlank(s[|s| - 1], b) {
      var init := s[..|s| - 1];
      TrimRightSpec(init, b);
      var r := TrimRight(init, b);
      assert init[..|r|] == s[..|r|];
      forall i | |r| <= i < |s|
        ensures IsBlank(s[i], b)
      {
        if i < |s| - 1 {
          assert s[i] == init[i];
        }
      }
    }
  }

  /** s without the blanks at either end. */
  function Trim(s: string, b: Blanks): string {
    TrimRight(TrimLeft(s, b), b)
  }

  /** Python's str.strip() with no argument. */
  function Strip(s: string): string {
    Trim(s, StripBlanks)
  }

  /**
   * Trimming keeps a slice of s that neither starts nor ends with a blank,
   * and every character it removes before or after that slice is a blank.
   */
  lemma TrimSpec(s: string, b: Blanks)
    ensures var r := Trim(s, b);
      && |r| <= |s|
      && (r == [] || (!IsBlank(r[0], b) && !IsBlank(r[|r| - 1], b)))
      && |r| <= |TrimLeft(s, b)| <= |s|
      && (forall j :: 0 <= j < |r| ==> r[j] == s[|s| - |TrimLeft(s, b)| + j])
      && (forall i :: 0 <= i < |s| - |TrimLeft(s, b)| ==> IsBlank(s[i], b))
      && (forall i :: |s| - |TrimLeft(s, b)| + |r| <= i < |s| ==> IsBlank(s[i], b))
  {
    TrimLeftSpec(s, b);
    TrimRightSpec(TrimLeft(s, b), b);
  }

  /** Every character trimming keeps comes from the text. */
  lemma TrimInside(s: string, b: Blanks, j: nat)
    requires j < |Trim(s, b)|
    ensures exists i :: 0 <= i < |s| && s[i] == Trim(s, b)[j]
  {
    TrimSpec(s, b);
    assert s[|s| - |TrimLeft(s, b)| + j] == Trim(s, b)[j];
  }

  lemma {:induction false} TrimLeftPadded(pad: string, t: string, b: Blanks)
    requires forall i :: 0 <= i < |pad| ==> IsBlank(pad[i], b)
    requires t == [] || !IsBlank(t[0], b)
    ensures TrimLeft(pad + t, b) == t
  {
    if pad != [] {
      assert (pad + t)[1..] == pad[1..] + t;
      TrimLeftPadded(pad[1..], t, b);
    }
  }

  lemma {:induction false} TrimRightPadded(t: string, pad: string, b: Blanks)
    requires forall i :: 0 <= i < |pad| ==> IsBlank(pad[i], b)
    requires t == [] || !IsBlank(t[|t| - 1], b)
    ensures TrimRight(t + pad, b) == t
  {
    if pad != [] {
      var s := t + pad;
      assert s[..|s| - 1] == t + pad[..|pad| - 1];
      TrimRightPadded(t, pad[..|pad| - 1], b);
    }
  }

  /** Blanks around an unpadded text are exactly what trimming removes. */
  lemma TrimPadded(before: string, t: string, after: string, b: Blanks)
    requires forall i :: 0 <= i < |before| ==> IsBlank(before[i], b)
    requires forall i :: 0 <= i < |after| ==> IsBlank(after[i], b)
    requires t != [] && !IsBlank(t[0], b) && !IsBlank(t[|t| - 1], b)
    ensures Trim(before + t + after, b) == t
  {
    assert before + t + after == before + (t + after);
    TrimLeftPadded(before, t + after, b);
    TrimRightPadded(t, after, b);
  }

  /** A text with no blank at either end is left as it is. */
  lemma TrimUnpadded(t: string, b: Blanks)
    requires t == [] || (!IsBlank(t[0], b) && !IsBlank(t[|t| - 1], b))
    ensures Trim(t, b) == t
  {
  }

  /** Trimming is idempotent. */
  lemma TrimIdempotent(s: string, b: Blanks)
    ensures Trim(Trim(s, b), b) == Trim(s, b)
  {
    TrimSpec(s, b);
    TrimUnpadded(Trim(s, b), b);
  }

  // ---------------------------------------------------------------------
  // str.split(sep) and its inverse sep.join(fields)

  /** Python's s.split(sep) for a one-character separator: never empty, "" gives [""]. */
  function Split(s: string, sep: char): (fields: seq<string>)
    ensures |fields| >= 1
    ensures forall i :: 0 <= i < |fields| ==> sep !in fields[i]
  {
    if |s| == 0 then [""]
    else
      var rest := Split(s[1..], sep);
      if s[0] == sep then [""] + rest
      else [[s[0]] + rest[0]] + rest[1..]
  }

  /** Python's sep.join(fields). */
  function Join(fields: seq<string>, sep: char): string {
    if |fields| == 0 then ""
    else if |fields| == 1 then fields[0]
    else fields[0] + [sep] + Join(fields[1..], sep)
  }

  /** Joining the fields of a split gives back the text. */
  lemma {:induction false} JoinSplit(s: string, sep: char)
    ensures Join(Split(s, sep), sep) == s
  {
    if |s| > 0 {
      var rest := Split(s[1..], sep);
      JoinSplit(s[1..], sep);
      if s[0] != sep && |rest| > 1 {
        assert Join(rest, sep) == rest[0] + [sep] + Join(rest[1..], sep);
      }
    }
  }

  /** A text without the separator is a single field. */
  lemma {:induction false} SplitWithoutSeparator(s: string, sep: char)
    requires sep !in s
    ensures Split(s, sep) == [s]
  {
    if |s| > 0 {
      assert s[0] != sep && sep !in s[1..];
      SplitWithoutSeparator(s[1..], sep);
      assert [s[0]] + s[1..] == s;
    }
  }

  /** Splitting distributes over a separator between two texts. */
  lemma {:induction false} SplitAround(a: string, b: string, sep: char)
    ensures Split(a + [sep] + b, sep) == Split(a, sep) + Split(b, sep)
  {
    if |a| == 0 {
      assert a + [sep] + b == [sep] + b;
      assert ([sep] + b)[1..] == b;
    } else {
      assert (a + [sep] + b)[1..] == a[1..] + [sep] + b;
      SplitAround(a[1..], b, sep);
    }
  }

  /** Splitting the join of separator-free fields gives back the fields. */
  lemma {:induction false} SplitJoin(fields: seq<string>, sep: char)
    requires |fields| >= 1
    requires forall i :: 0 <= i < |fields| ==> sep !in fields[i]
    ensures Split(Join(fields, sep), sep) == fields
  {
    if |fields| == 1 {
      SplitWithoutSeparator(fields[0], sep);
    } else {
      SplitWithoutSeparator(fields[0], sep);
      SplitJoin(fields[1..], sep);
      SplitAround(fields[0], Join(fields[1..], sep), sep);
    }
  }

  // ---------------------------------------------------------------------
  // int(s) and str(n) on decimal integers

  predicate IsDigit(c: char) {
    '0' <= c <= '9'
  }

  predicate AllDigits(s: string) {
    forall i :: 0 <= i < |s| ==> IsDigit(s[i])
  }

  /** A non-empty run of decimal digits. */
  predicate IsDigits(s: string) {
    |s| > 0 && AllDigits(s)
  }

  /** The value of a run of decimal digits, leading zeros allowed. */
  function DigitsValue(s: string): nat
    requires AllDigits(s)
  {
    if |s| == 0 then 0
    else DigitsValue(s[..|s| - 1]) * 10 + (s[|s| - 1] as int - '0' as int)
  }

  function DigitChar(d: nat): (c: char)
    requires d < 10
    ensures IsDigit(c) && c as int - '0' as int == d
  {
    ('0' as int + d) as char
  }

  /** The shortest decimal digits of n. */
  function NatToDigits(n: nat): (r: string)
    ensures IsDigits(r)
    ensures DigitsValue(r) == n
    decreases n
  {
    if n < 10 then [DigitChar(n)]
    else
      var r := NatToDigits(n / 10) + [DigitChar(n % 10)];
      assert r[..|r| - 1] == NatToDigits(n / 10);
      r
  }

  /** Python's str(n) for an int. */
  function IntToString(n: int): (r: string)
    ensures r != [] && (r[0] == '-' || IsDigit(r[0])) && IsDigit(r[|r| - 1])
    ensures ',' !in r && '.' !in r
  {
    if n < 0 then "-" + NatToDigits(-n) else NatToDigits(n)
  }

  /**
   * Python's int(s) on a str: whitespace int() skips around an optional '+'
   * or '-' and one or more decimal digits; None where int() raises ValueError.
   */
  function ParseInt(s: string): Option<int> {
    var t := Trim(s, IntBlanks);
    if |t| > 0 && (t[0] == '+' || t[0] == '-') then
      if IsDigits(t[1..]) then
        var magnitude: int := DigitsValue(t[1..]);
        Some(if t[0] == '-' then -magnitude else magnitude)
      else None
    else if IsDigits(t) then Some(DigitsValue(t))
    else None
  }

  /** int() is defined only on texts that contain a digit. */
  lemma ParseIntNeedsDigit(s: string)
    requires ParseInt(s).Some?
    ensures exists i :: 0 <= i < |s| && IsDigit(s[i])
  {
    var t := Trim(s, IntBlanks);
    var j := if t[0] == '+' || t[0] == '-' then 1 else 0;
    assert IsDigit(t[j]);
    TrimInside(s, IntBlanks, j);
  }

  /** int(str(n)) == n for every integer n. */
  lemma ParseIntToString(n: int)
    ensures ParseInt(IntToString(n)) == Some(n)
  {
    TrimUnpadded(IntToString(n), IntBlanks);
  }

  /** Where int()'s whitespace runs up to a character strip() keeps, strip() removes the same prefix. */
  lemma {:induction false} TrimLeftNested(s: string)
    requires var u := TrimLeft(s, IntBlanks); u == [] || !IsSpace(u[0])
    ensures TrimLeft(s, StripBlanks) == TrimLeft(s, IntBlanks)
  {
    if |s| > 0 && IsIntSpace(s[0]) {
      TrimLeftNested(s[1..]);
    }
  }

  /** Where int()'s whitespace runs back to a character strip() keeps, strip() removes the same suffix. */
  lemma {:induction false} TrimRightNested(s: string)
    requires var u := TrimRight(s, IntBlanks); u == [] || !IsSpace(u[|u| - 1])
    ensures TrimRight(s, StripBlanks) == TrimRight(s, IntBlanks)
  {
    if |s| > 0 && IsIntSpace(s[|s| - 1]) {
      TrimRightNested(s[..|s| - 1]);
    }
  }

  /** Once int() has skipped its whitespace, strip() removes the same characters when no other blank is left at the ends. */
  lemma StripAfterIntTrim(s: string)
    requires var t := Trim(s, IntBlanks); t != [] && !IsSpace(t[0]) && !IsSpace(t[|t| - 1])
    ensures Strip(s) == Trim(s, IntBlanks)
  {
    var u := TrimLeft(s, IntBlanks);
    TrimRightSpec(u, IntBlanks);
    assert u[0] == Trim(s, IntBlanks)[0];
    TrimLeftNested(s);
    TrimRightNested(u);
  }

  /**
   * Where int(s) succeeds, int(s.strip()) gives the same integer: the
   * whitespace int() skips is whitespace strip() removes.
   */
  lemma ParseIntAfterStrip(s: string)
    ensures ParseInt(s).Some? ==> ParseInt(Strip(s)) == ParseInt(s)
  {
    if ParseInt(s).Some? {
      var t := Trim(s, IntBlanks);
      assert !IsSpace(t[0]) && !IsSpace(t[|t| - 1]);
      StripAfterIntTrim(s);
      TrimIdempotent(s, IntBlanks);
      assert Trim(Strip(s), IntBlanks) == t;
    }
  }

  /**
   * The converse fails: a separator such as U+001C makes int() raise while
   * strip() removes it, so "\x1c5" is rejected by int() and accepted after strip().
   */
  lemma SeparatorPaddingNeedsStrip()
    ensures ParseInt("\U{1c}5") == None
    ensures ParseInt(Strip("\U{1c}5")) == Some(5)
  {
    TrimUnpadded("\U{1c}5", IntBlanks);
    assert "\U{1c}5" == "\U{1c}" + "5" + "";
    TrimPadded("\U{1c}", "5", "", StripBlanks);
    TrimUnpadded("5", IntBlanks);
  }
}
