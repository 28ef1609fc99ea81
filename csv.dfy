/** parseCSV: the integers of a comma-separated text, in order. */
module Csv {
  import opened Wrappers
  import opened Text

  /** int(field.strip()), or None where that raises. */
  function FieldValue(field: string): Option<int> {
    ParseInt(Strip(field))
  }

  /** A field int() accepts as it is gives the same integer once stripped. */
  lemma FieldValueStrips(field: string)
    ensures ParseInt(field).Some? ==> FieldValue(field) == ParseInt(field)
  {
    ParseIntAfterStrip(field);
  }

  /** f applied to each element of xs, in order. */
  function Map<T, U>(f: T -> U, xs: seq<T>): (r: seq<U>)
    ensures |r| == |xs|
  {
    if |xs| == 0 then []
    else Map(f, xs[..|xs| - 1]) + [f(xs[|xs| - 1])]
  }

  /** FieldValue of each field, in order. */
  function Parsed(fields: seq<string>): seq<Option<int>> {
    Map(FieldValue, fields)
  }

  /** The present values, in order; every None is dropped. */
  function Kept(values: seq<Option<int>>): (r: seq<int>)
    ensures |r| <= |values|
  {
    if |values| == 0 then []
    else
      var last := values[|values| - 1];
      Kept(values[..|values| - 1]) + (if last.Some? then [last.value] else [])
  }

  /** The list parseCSV returns for strCSV. */
  function CsvValues(strCSV: string): seq<int> {
    Kept(Parsed(Split(strCSV, ',')))
  }

  /** parseCSV(strCSV): split on ',', keep each field that int() accepts after strip(). */
  method ParseCSV(strCSV: string) returns (listValues: seq<int>)
    ensures listValues == CsvValues(strCSV)
  {
    listValues := [];
    var fields := Split(strCSV, ',');
    var i := 0;
    while i < |fields|
      invariant 0 <= i <= |fields|
      invariant listValues == Kept(Parsed(fields[..i]))
    {
      assert fields[..i + 1][..i] == fields[..i];
      var val := FieldValue(fields[i]);
      if val.Some? {
        listValues := listValues + [val.value];
      }
      i := i + 1;
    }
    assert fields[..i] == fields;
  }

  lemma {:induction false} MapAt<T, U>(f: T -> U, xs: seq<T>, k: nat)
    requires k < |xs|
    ensures Map(f, xs)[k] == f(xs[k])
  {
    if k < |xs| - 1 {
      MapAt(f, xs[..|xs| - 1], k);
    }
  }

  lemma {:induction false} MapAppend<T, U>(f: T -> U, a: seq<T>, b: seq<T>)
    ensures Map(f, a + b) == Map(f, a) + Map(f, b)
    decreases |b|
  {
    if |b| > 0 {
      var ab := a + b;
      assert ab[..|ab| - 1] == a + b[..|b| - 1];
      assert ab[|ab| - 1] == b[|b| - 1];
      MapAppend(f, a, b[..|b| - 1]);
    } else {
      assert a + b == a;
    }
  }

  /** The k-th parsed value belongs to the k-th field. */
  lemma ParsedAt(fields: seq<string>, k: nat)
    requires k < |fields|
    ensures Parsed(fields)[k] == FieldValue(fields[k])
  {
    MapAt(FieldValue, fields, k);
  }

  /** Parsing two runs of fields parses each run. */
  lemma ParsedAppend(a: seq<string>, b: seq<string>)
    ensures Parsed(a + b) == Parsed(a) + Parsed(b)
  {
    MapAppend(FieldValue, a, b);
  }

  lemma {:induction false} KeptAppend(a: seq<Option<int>>, b: seq<Option<int>>)
    ensures Kept(a + b) == Kept(a) + Kept(b)
    decreases |b|
  {
    if |b| > 0 {
      var ab := a + b;
      assert ab[..|ab| - 1] == a + b[..|b| - 1];
      KeptAppend(a, b[..|b| - 1]);
    } else {
      assert a + b == a;
    }
  }

  lemma {:induction false} KeptEmpty(values: seq<Option<int>>)
    ensures Kept(values) == [] <==> forall i :: 0 <= i < |values| ==> values[i].None?
  {
    if |values| > 0 {
      var init := values[..|values| - 1];
      KeptEmpty(init);
      assert forall i :: 0 <= i < |init| ==> init[i] == values[i];
    }
  }

  lemma {:induction false} KeptAllPresent(values: seq<Option<int>>)
    requires forall i :: 0 <= i < |values| ==> values[i].Some?
    ensures |Kept(values)| == |values|
    ensures forall i :: 0 <= i < |values| ==> Kept(values)[i] == values[i].value
  {
    if |values| > 0 {
      var init := values[..|values| - 1];
      assert forall i :: 0 <= i < |init| ==> init[i] == values[i];
      KeptAllPresent(init);
    }
  }

  /** At most one integer per comma-separated field; "" gives []. */
  lemma CsvValuesBound(strCSV: string)
    ensures |CsvValues(strCSV)| <= |Split(strCSV, ',')|
    ensures strCSV == "" ==> CsvValues(strCSV) == []
  {
  }

  /** No field holds an integer exactly when nothing is kept. */
  lemma ParsedEmpty(fields: seq<string>)
    ensures Kept(Parsed(fields)) == [] <==> forall i :: 0 <= i < |fields| ==> FieldValue(fields[i]).None?
  {
    var values := Parsed(fields);
    KeptEmpty(values);
    forall i | 0 <= i < |fields| ensures values[i] == FieldValue(fields[i]) {
      ParsedAt(fields, i);
    }
  }

  /** Every field holds an integer: they are all kept, field by field. */
  lemma ParsedAllNumeric(fields: seq<string>)
    requires forall i :: 0 <= i < |fields| ==> FieldValue(fields[i]).Some?
    ensures |Kept(Parsed(fields))| == |fields|
    ensures forall i :: 0 <= i < |fields| ==> Kept(Parsed(fields))[i] == FieldValue(fields[i]).value
  {
    var values := Parsed(fields);
    forall i | 0 <= i < |fields| ensures values[i] == FieldValue(fields[i]) {
      ParsedAt(fields, i);
    }
    KeptAllPresent(values);
  }

  /** The result is empty exactly when no field holds an integer. */
  lemma CsvValuesEmpty(strCSV: string, fields: seq<string>)
    requires fields == Split(strCSV, ',')
    ensures CsvValues(strCSV) == [] <==> forall i :: 0 <= i < |fields| ==> FieldValue(fields[i]).None?
  {
    ParsedEmpty(fields);
  }

  /** When every field holds an integer, the result lists them field by field. */
  lemma CsvValuesAllNumeric(strCSV: string, fields: seq<string>)
    requires fields == Split(strCSV, ',')
    requires forall i :: 0 <= i < |fields| ==> FieldValue(fields[i]).Some?
    ensures |CsvValues(strCSV)| == |fields|
    ensures forall i :: 0 <= i < |fields| ==> CsvValues(strCSV)[i] == FieldValue(fields[i]).value
  {
    ParsedAllNumeric(fields);
  }

  /** Parsing "a,b" is parsing a, then parsing b. */
  lemma CsvValuesConcat(a: string, b: string)
    ensures CsvValues(a + "," + b) == CsvValues(a) + CsvValues(b)
  {
    assert a + "," + b == a + [','] + b;
    SplitAround(a, b, ',');
    ParsedAppend(Split(a, ','), Split(b, ','));
    KeptAppend(Parsed(Split(a, ',')), Parsed(Split(b, ',')));
  }

  /** ",".join(str(x) for x in xs). */
  function Render(xs: seq<int>): string {
    if |xs| == 0 then ""
    else if |xs| == 1 then IntToString(xs[0])
    else IntToString(xs[0]) + "," + Render(xs[1..])
  }

  /** A rendered integer is one field that parses back to it. */
  lemma CsvValuesOfNumber(n: int)
    ensures CsvValues(IntToString(n)) == [n]
  {
    var x := IntToString(n);
    SplitWithoutSeparator(x, ',');
    TrimUnpadded(x, StripBlanks);
    ParseIntToString(n);
    assert FieldValue(x) == Some(n);
    assert Parsed([x]) == [Some(n)];
  }

  /** parseCSV inverts the rendering: every integer comes back, in order. */
  lemma {:induction false} CsvValuesOfRender(xs: seq<int>)
    ensures CsvValues(Render(xs)) == xs
  {
    if |xs| > 0 {
      var x := IntToString(xs[0]);
      CsvValuesOfNumber(xs[0]);
      if |xs| > 1 {
        var rest := Render(xs[1..]);
        assert Render(xs) == x + "," + rest;
        CsvValuesConcat(x, rest);
        CsvValuesOfRender(xs[1..]);
        assert xs == [xs[0]] + xs[1..];
      }
    }
  }
}
