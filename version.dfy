/**
 * The version test in getUserVar, LooseVersion(v) >= LooseVersion("2.4.9"),
 * as distutils computes it under Python 3: the version is cut into number
 * and text components, and the component lists are compared as Python
 * compares lists, which raises where a number meets a text.
 */
module Version {
  import opened Wrappers
  import opened Text

  // ---------------------------------------------------------------------
  // LooseVersion components

  /** A component of a LooseVersion: a run of digits read as a number, or any other run as text. */
  datatype Component = Num(n: nat) | Alpha(text: string)

  /** The alternatives of LooseVersion's pattern (\d+ | [a-z]+ | \.), and the unmatched text between them. */
  datatype CharClass = Digits | Letters | Dot | Other

  function ClassOf(c: char): CharClass {
    if IsDigit(c) then Digits
    else if 'a' <= c <= 'z' then Letters
    else if c == '.' then Dot
    else Other
  }

  /** The length of the longest prefix of s made of characters of class cls. */
  function RunLength(s: string, cls: CharClass): (n: nat)
    ensures n <= |s|
    ensures |s| > 0 && ClassOf(s[0]) == cls ==> n > 0
  {
    if |s| > 0 && ClassOf(s[0]) == cls then 1 + RunLength(s[1..], cls) else 0
  }

  /** The run is made of characters of class cls, and the next character, if any, is of another class. */
  lemma {:induction false} RunLengthSpec(s: string, cls: CharClass)
    ensures var n := RunLength(s, cls);
      && (forall i :: 0 <= i < n ==> ClassOf(s[i]) == cls)
      && (n < |s| ==> ClassOf(s[n]) != cls)
  {
    if |s| > 0 && ClassOf(s[0]) == cls {
      RunLengthSpec(s[1..], cls);
    }
  }

  /**
   * LooseVersion(v).version: v cut into maximal runs of one class; the dots
   * are dropped, a digit run becomes its number (int() accepts it), every
   * other run stays text (int() rejects it).
   */
  function LooseComponents(v: string): seq<Component>
    decreases |v|
  {
    if |v| == 0 then []
    else
      var cls := ClassOf(v[0]);
      var n := RunLength(v, cls);
      match cls
      case Dot => LooseComponents(v[n..])
      case Digits =>
        RunLengthSpec(v, cls);
        [Num(DigitsValue(v[..n]))] + LooseComponents(v[n..])
      case _ => [Alpha(v[..n])] + LooseComponents(v[n..])
  }

  /** Python 3's a < b on str: code point by code point, a proper prefix first. */
  predicate TextLess(a: string, b: string) {
    if |a| == 0 then |b| > 0
    else if |b| == 0 then false
    else if a[0] != b[0] then a[0] < b[0]
    else TextLess(a[1..], b[1..])
  }

  /**
   * Python 3's a < b on lists of components: the first pair that differs
   * decides and a proper prefix is smaller; None where that pair is a
   * number and a text, which Python refuses to order (TypeError).
   */
  function ComponentsLess(a: seq<Component>, b: seq<Component>): Option<bool> {
    if |a| == 0 then Some(|b| > 0)
    else if |b| == 0 then Some(false)
    else if a[0] == b[0] then ComponentsLess(a[1..], b[1..])
    else match (a[0], b[0])
      case (Num(x), Num(y)) => Some(x < y)
      case (Alpha(x), Alpha(y)) => Some(TextLess(x, y))
      case _ => None
  }

  /** The components of a version written with numbers only. */
  function Numbers(xs: seq<nat>): (r: seq<Component>)
    ensures |r| == |xs|
    ensures forall i :: 0 <= i < |xs| ==> r[i] == Num(xs[i])
  {
    if |xs| == 0 then [] else [Num(xs[0])] + Numbers(xs[1..])
  }

  /**
   * LooseVersion(version) >= LooseVersion(threshold), for a threshold made
   * of numbers: equal lists are at least, otherwise not less; None where
   * the comparison raises.
   */
  function LooseAtLeast(version: string, threshold: seq<nat>): Option<bool> {
    var c := LooseComponents(version);
    if c == Numbers(threshold) then Some(true)
    else match ComponentsLess(c, Numbers(threshold))
      case Some(less) => Some(!less)
      case None => None
  }

  /** The test holds (and does not raise). */
  predicate AtLeast(version: string, threshold: seq<nat>) {
    LooseAtLeast(version, threshold) == Some(true)
  }

  /** The dzvents version from which the host wants 'adduservariable'. */
  const AddUserVariableSince: seq<nat> := [2, 4, 9]

  // ---------------------------------------------------------------------
  // Which comparisons raise

  /** A list of numbers never meets a text, so comparing it with numbers never raises. */
  lemma {:induction false} NumbersNeverRaise(a: seq<Component>, b: seq<nat>)
    requires forall k :: 0 <= k < |a| ==> a[k].Num?
    ensures ComponentsLess(a, Numbers(b)).Some?
  {
    if |a| > 0 && |b| > 0 && a[0] == Numbers(b)[0] {
      assert Numbers(b)[1..] == Numbers(b[1..]);
      NumbersNeverRaise(a[1..], b[1..]);
    }
  }

  /** The test can raise only on a version that has a text component. */
  lemma OnlyTextRaises(version: string, threshold: seq<nat>)
    requires forall k :: 0 <= k < |LooseComponents(version)| ==> LooseComponents(version)[k].Num?
    ensures LooseAtLeast(version, threshold).Some?
  {
    NumbersNeverRaise(LooseComponents(version), threshold);
  }

  // ---------------------------------------------------------------------
  // Dotted decimal versions

  /** The integer of each field, if every field is a run of digits. */
  function FieldNumbers(fields: seq<string>): (r: Option<seq<nat>>)
    ensures r.Some? ==> |r.value| == |fields|
    ensures r.Some? <==> forall i :: 0 <= i < |fields| ==> IsDigits(fields[i])
  {
    if |fields| == 0 then Some([])
    else if !IsDigits(fields[0]) then None
    else match FieldNumbers(fields[1..])
      case Some(rest) => Some([DigitsValue(fields[0])] + rest)
      case None => None
  }

  /** The components of a version such as "2.4.9"; None for any other text. */
  function Components(version: string): Option<seq<nat>> {
    FieldNumbers(Split(version, '.'))
  }

  /** Python's a < b on lists of integers: the first difference decides, and a proper prefix is smaller. */
  predicate LexLess(a: seq<nat>, b: seq<nat>) {
    if |a| == 0 then |b| > 0
    else if |b| == 0 then false
    else if a[0] != b[0] then a[0] < b[0]
    else LexLess(a[1..], b[1..])
  }

  lemma {:induction false} LexLessIrreflexive(a: seq<nat>)
    ensures !LexLess(a, a)
  {
    if |a| > 0 {
      LexLessIrreflexive(a[1..]);
    }
  }

  lemma {:induction false} LexLessTransitive(a: seq<nat>, b: seq<nat>, c: seq<nat>)
    requires LexLess(a, b) && LexLess(b, c)
    ensures LexLess(a, c)
  {
    if |a| > 0 && |b| > 0 && |c| > 0 && a[0] == b[0] == c[0] {
      LexLessTransitive(a[1..], b[1..], c[1..]);
    }
  }

  /** Any two versions are ordered one way or the other, or are equal. */
  lemma {:induction false} LexLessTotal(a: seq<nat>, b: seq<nat>)
    ensures a == b || LexLess(a, b) || LexLess(b, a)
  {
    if |a| > 0 && |b| > 0 && a[0] == b[0] {
      LexLessTotal(a[1..], b[1..]);
      if a[1..] == b[1..] {
        assert a == [a[0]] + a[1..] && b == [b[0]] + b[1..];
      }
    }
  }

  /** The order is strict: never both ways. */
  lemma LexLessAsymmetric(a: seq<nat>, b: seq<nat>)
    ensures !(LexLess(a, b) && LexLess(b, a))
  {
  }

  /** Comparing two lists of numbers as components is comparing them as integers. */
  lemma {:induction false} NumbersLess(a: seq<nat>, b: seq<nat>)
    ensures ComponentsLess(Numbers(a), Numbers(b)) == Some(LexLess(a, b))
  {
    if |a| > 0 && |b| > 0 {
      assert Numbers(a)[1..] == Numbers(a[1..]);
      assert Numbers(b)[1..] == Numbers(b[1..]);
      NumbersLess(a[1..], b[1..]);
    }
  }

  /** The prefix run of class cls of d + r is d when r does not continue it. */
  lemma {:induction false} RunLengthOfPrefix(d: string, r: string, cls: CharClass)
    requires forall i :: 0 <= i < |d| ==> ClassOf(d[i]) == cls
    requires r == [] || ClassOf(r[0]) != cls
    ensures RunLength(d + r, cls) == |d|
  {
    if |d| > 0 {
      assert (d + r)[1..] == d[1..] + r;
      RunLengthOfPrefix(d[1..], r, cls);
    }
  }

  /** A leading digit run is the first component. */
  lemma LooseComponentsOfDigits(d: string, r: string)
    requires IsDigits(d)
    requires r == [] || ClassOf(r[0]) != Digits
    ensures LooseComponents(d + r) == [Num(DigitsValue(d))] + LooseComponents(r)
  {
    RunLengthOfPrefix(d, r, Digits);
    assert (d + r)[..|d|] == d && (d + r)[|d|..] == r;
  }

  /** A leading run of lower-case letters is the first component, as text. */
  lemma LooseComponentsOfLetters(d: string, r: string)
    requires |d| > 0 && forall i :: 0 <= i < |d| ==> ClassOf(d[i]) == Letters
    requires r == [] || ClassOf(r[0]) != Letters
    ensures LooseComponents(d + r) == [Alpha(d)] + LooseComponents(r)
  {
    RunLengthOfPrefix(d, r, Letters);
    assert (d + r)[..|d|] == d && (d + r)[|d|..] == r;
  }

  /** A single leading dot is dropped. */
  lemma LooseComponentsOfDot(r: string)
    requires r == [] || ClassOf(r[0]) != Dot
    ensures LooseComponents(['.'] + r) == LooseComponents(r)
  {
    RunLengthOfPrefix(['.'], r, Dot);
    assert (['.'] + r)[1..] == r;
  }

  /** A digit run followed by a dot and more digits is its number, then the rest. */
  lemma DottedStep(d: string, rest: string)
    requires IsDigits(d)
    requires |rest| > 0 && IsDigit(rest[0])
    ensures LooseComponents(d + ['.'] + rest) == [Num(DigitsValue(d))] + LooseComponents(rest)
  {
    var tail := ['.'] + rest;
    assert tail[0] == '.' && tail[1..] == rest;
    LooseComponentsOfDot(rest);
    LooseComponentsOfDigits(d, tail);
    assert d + ['.'] + rest == d + tail;
  }

  /** Joining starts with the first field. */
  lemma JoinStartsWithFirst(fields: seq<string>, sep: char)
    requires |fields| >= 1 && |fields[0]| > 0
    ensures |Join(fields, sep)| > 0 && Join(fields, sep)[0] == fields[0][0]
  {
  }

  /** The components of dotted digit runs are their numbers. */
  lemma {:induction false} DottedComponents(fields: seq<string>)
    requires |fields| >= 1
    requires forall i :: 0 <= i < |fields| ==> IsDigits(fields[i])
    ensures LooseComponents(Join(fields, '.')) == Numbers(FieldNumbers(fields).value)
  {
    var d := fields[0];
    if |fields| == 1 {
      assert d + [] == d;
      LooseComponentsOfDigits(d, []);
    } else {
      var tail := fields[1..];
      DottedComponents(tail);
      JoinStartsWithFirst(tail, '.');
      DottedStep(d, Join(tail, '.'));
      var ns := FieldNumbers(tail).value;
      assert FieldNumbers(fields).value == [DigitsValue(d)] + ns;
      assert ([DigitsValue(d)] + ns)[1..] == ns;
    }
  }

  /** On a dotted decimal version the test never raises and compares the numbers as integers. */
  lemma DottedAtLeast(version: string, threshold: seq<nat>)
    requires Components(version).Some?
    ensures LooseAtLeast(version, threshold) == Some(!LexLess(Components(version).value, threshold))
  {
    var fields := Split(version, '.');
    var nums := Components(version).value;
    JoinSplit(version, '.');
    DottedComponents(fields);
    NumbersLess(nums, threshold);
    if nums == threshold {
      LexLessIrreflexive(nums);
    } else if Numbers(nums) == Numbers(threshold) {
      assert forall i :: 0 <= i < |nums| ==> nums[i] == threshold[i] by {
        forall i | 0 <= i < |nums| ensures nums[i] == threshold[i] {
          assert Numbers(nums)[i] == Numbers(threshold)[i];
        }
      }
    }
  }

  /** A dotted decimal version no older than one that passes the test passes it too. */
  lemma AtLeastMonotone(v: string, w: string, threshold: seq<nat>)
    requires AtLeast(v, threshold)
    requires Components(v).Some? && Components(w).Some?
    requires !LexLess(Components(w).value, Components(v).value)
    ensures AtLeast(w, threshold)
  {
    DottedAtLeast(v, threshold);
    DottedAtLeast(w, threshold);
    var cv, cw := Components(v).value, Components(w).value;
    if LexLess(cw, threshold) {
      LexLessTotal(cv, threshold);
      if LexLess(threshold, cv) {
        LexLessTransitive(cw, threshold, cv);
      }
    }
  }

  /** A version written as dotted digit runs has those runs as its components. */
  lemma ComponentsOfJoin(fields: seq<string>)
    requires |fields| >= 1
    requires forall i :: 0 <= i < |fields| ==> IsDigits(fields[i]) && '.' !in fields[i]
    ensures Components(Join(fields, '.')) == FieldNumbers(fields)
  {
    SplitJoin(fields, '.');
  }

  // ---------------------------------------------------------------------
  // Examples

  /** The threshold itself already uses 'adduservariable'. */
  lemma AtThreshold()
    ensures AtLeast("2.4.9", AddUserVariableSince)
  {
    ComponentsOfJoin(["2", "4", "9"]);
    assert Join(["2", "4", "9"], '.') == "2.4.9";
    DottedAtLeast("2.4.9", AddUserVariableSince);
  }

  /** Components compare as numbers, not as text: 2.4.10 is later than 2.4.9. */
  lemma NumericNotTextual()
    ensures AtLeast("2.4.10", AddUserVariableSince)
  {
    ComponentsOfJoin(["2", "4", "10"]);
    assert Join(["2", "4", "10"], '.') == "2.4.10";
    assert DigitsValue("10") == 10;
    DottedAtLeast("2.4.10", AddUserVariableSince);
  }

  /** An earlier version keeps 'saveuservariable'. */
  lemma BelowThreshold()
    ensures LooseAtLeast("2.4.8", AddUserVariableSince) == Some(false)
  {
    ComponentsOfJoin(["2", "4", "8"]);
    assert Join(["2", "4", "8"], '.') == "2.4.8";
    DottedAtLeast("2.4.8", AddUserVariableSince);
  }

  /** A proper prefix of the threshold is older than it. */
  lemma PrefixIsOlder()
    ensures LooseAtLeast("2.4", AddUserVariableSince) == Some(false)
  {
    ComponentsOfJoin(["2", "4"]);
    assert Join(["2", "4"], '.') == "2.4";
    DottedAtLeast("2.4", AddUserVariableSince);
  }

  /** "d.x", for a run of digits d, is the number of d and then the text "x". */
  lemma NumberThenText(d: string)
    requires IsDigits(d)
    ensures LooseComponents(d + ".x") == [Num(DigitsValue(d)), Alpha("x")]
  {
    assert "x" + [] == "x";
    LooseComponentsOfLetters("x", []);
    LooseComponentsOfDot("x");
    assert ['.'] + "x" == ".x";
    LooseComponentsOfDigits(d, ".x");
  }

  /** "a.b.x", for runs of digits a and b: two numbers and the text "x". */
  lemma TwoNumbersThenText(a: string, b: string)
    requires IsDigits(a) && IsDigits(b)
    ensures LooseComponents(a + "." + b + ".x") == [Num(DigitsValue(a)), Num(DigitsValue(b)), Alpha("x")]
  {
    NumberThenText(b);
    DottedStep(a, b + ".x");
    assert a + "." + b + ".x" == a + ['.'] + (b + ".x");
  }

  /** Against 2.4.9, a version a.b.x whose a.b is 2.4 meets the text 'x' against 9 and raises. */
  lemma TextMeetsNumber(a: string, b: string)
    requires IsDigits(a) && IsDigits(b) && DigitsValue(a) == 2 && DigitsValue(b) == 4
    ensures LooseAtLeast(a + "." + b + ".x", AddUserVariableSince) == None
  {
    TwoNumbersThenText(a, b);
    var c := LooseComponents(a + "." + b + ".x");
    var t := Numbers(AddUserVariableSince);
    assert c == [Num(2), Num(4), Alpha("x")];
    assert t == [Num(2), Num(4), Num(9)];
    assert c[1..][1..] == [Alpha("x")] && t[1..][1..] == [Num(9)];
    assert ComponentsLess(c[1..][1..], t[1..][1..]) == None;
    assert ComponentsLess(c[1..], t[1..]) == None;
    assert c != t by {
      assert c[2] != t[2];
    }
  }

  /** Against 2.4.9, a version a.b.x whose a.b is 2.5 is decided by 5 against 4. */
  lemma NumberDecidesFirst(a: string, b: string)
    requires IsDigits(a) && IsDigits(b) && DigitsValue(a) == 2 && DigitsValue(b) == 5
    ensures LooseAtLeast(a + "." + b + ".x", AddUserVariableSince) == Some(true)
  {
    TwoNumbersThenText(a, b);
    var c := LooseComponents(a + "." + b + ".x");
    var t := Numbers(AddUserVariableSince);
    assert c == [Num(2), Num(5), Alpha("x")];
    assert t == [Num(2), Num(4), Num(9)];
    assert c[1..] == [Num(5), Alpha("x")] && t[1..] == [Num(4), Num(9)];
    assert ComponentsLess(c[1..], t[1..]) == Some(false);
    assert c != t by {
      assert c[1] != t[1];
    }
  }

  /** "2.4.x" is [2, 4, 'x']: the first difference pairs 'x' with 9, and the comparison raises. */
  lemma TextAgainstNumberRaises()
    ensures LooseAtLeast("2.4.x", AddUserVariableSince) == None
  {
    TextMeetsNumber("2", "4");
    assert "2" + "." + "4" + ".x" == "2.4.x";
  }

  /** "2.5.x" is [2, 5, 'x']: 5 against 4 decides first, so the text is never compared. */
  lemma EarlierDifferenceDecides()
    ensures LooseAtLeast("2.5.x", AddUserVariableSince) == Some(true)
  {
    NumberDecidesFirst("2", "5");
    assert "2" + "." + "5" + ".x" == "2.5.x";
  }
}
