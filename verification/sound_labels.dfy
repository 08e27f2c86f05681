/** The AudioSet label table and the lookups that turn classifier indices
    into the names shown in records and e-mails. */
module SoundLabels {
  import opened Base
  import opened Decimal

  /** A row of the labels CSV, after `csv.DictReader` has split it. */
  datatype Row = Row(index: string, displayName: string)

  /** A sign followed by at least one ASCII digit. */
  predicate SignedDigits(s: string) {
    |s| > 1 && (s[0] == '-' || s[0] == '+') && AllDigits(s[1..])
  }

  /** Python `int(s)` for an optional sign followed by ASCII digits;
      anything else raises `ValueError`. */
  function ParseInt(s: string): (r: Result<int>)
    // accepted: exactly the unsigned and the signed digit strings
    ensures r.Ok? <==> IsDigitString(s) || SignedDigits(s)
    ensures IsDigitString(s) ==> r == Ok(Value(s))
    ensures SignedDigits(s) ==> r == Ok(if s[0] == '-' then 0 - Value(s[1..]) else Value(s[1..]))
  {
    if IsDigitString(s) then Ok(Value(s))
    else if SignedDigits(s) then
      assert !IsDigit(s[0]);
      if s[0] == '-' then Ok(0 - Value(s[1..]) as int) else Ok(Value(s[1..]))
    else Raised("ValueError: invalid literal for int() with base 10")
  }

  /** `str(n)` read back by `int` gives `n`, for either sign. */
  lemma ParseIntRoundTrip(n: int)
    ensures n >= 0 ==> ParseInt(NatToString(n)) == Ok(n)
    ensures n < 0 ==> ParseInt("-" + NatToString(-n)) == Ok(n)
  {
    if n < 0 {
      var s := "-" + NatToString(-n);
      assert s[1..] == NatToString(-n);
      assert !IsDigit(s[0]);
    }
  }

  /** An index parser: `int` in the program, any total parser here. */
  type Parser = string -> Result<int>

  /** Row `j` is the last of `rows[..n]` whose index parses to `k`. */
  predicate LastRowFor(parse: Parser, rows: seq<Row>, n: nat, j: nat, k: int)
    requires n <= |rows|
  {
    j < n && parse(rows[j].index) == Ok(k) && forall m :: j < m < n ==> parse(rows[m].index) != Ok(k)
  }

  /** Every index of `rows[..n]` parses. */
  ghost predicate AllParsed(parse: Parser, rows: seq<Row>, n: nat)
    requires n <= |rows|
  {
    forall j :: 0 <= j < n ==> parse(rows[j].index).Ok?
  }

  /** `labels` is what reading `rows[..n]` produced: the keys are exactly
      the indices read, and each holds the name of the last row with it. */
  ghost predicate Loaded(parse: Parser, rows: seq<Row>, n: nat, labels: map<int, string>)
    requires n <= |rows|
  {
    && (forall k :: k in labels <==> exists j :: 0 <= j < n && parse(rows[j].index) == Ok(k))
    && (forall j, k :: 0 <= j < n && LastRowFor(parse, rows, n, j, k) ==> k in labels && labels[k] == rows[j].displayName)
  }

  /** Storing one more row keeps the table in step with the rows read. */
  lemma LoadedStep(parse: Parser, rows: seq<Row>, n: nat, labels: map<int, string>)
    requires n < |rows| && Loaded(parse, rows, n, labels) && parse(rows[n].index).Ok?
    ensures Loaded(parse, rows, n + 1, labels[parse(rows[n].index).value := rows[n].displayName])
  {
    var k0 := parse(rows[n].index).value;
    var after := labels[k0 := rows[n].displayName];
    forall k
      ensures k in after <==> exists j :: 0 <= j < n + 1 && parse(rows[j].index) == Ok(k)
    {
      if k == k0 {
        assert parse(rows[n].index) == Ok(k);
      } else if k in labels {
        var j :| 0 <= j < n && parse(rows[j].index) == Ok(k);
      }
    }
    forall j, k | 0 <= j < n + 1 && LastRowFor(parse, rows, n + 1, j, k)
      ensures k in after && after[k] == rows[j].displayName
    {
      if j < n {
        assert parse(rows[n].index) != Ok(k);
        assert LastRowFor(parse, rows, n, j, k);
      }
    }
  }

  /** The loop of lines 41-44 with the index parser as a parameter: a later
      row with the same index overwrites an earlier one, and the first index
      that does not parse aborts the load. */
  method LoadTable(parse: Parser, rows: seq<Row>) returns (r: Result<map<int, string>>)
    ensures r.Raised? <==> exists j :: 0 <= j < |rows| && parse(rows[j].index).Raised?
    ensures r.Ok? ==> Loaded(parse, rows, |rows|, r.value)
  {
    var labels: map<int, string> := map[];
    var i := 0;
    while i < |rows|
      invariant 0 <= i <= |rows|
      invariant AllParsed(parse, rows, i)
      invariant Loaded(parse, rows, i, labels)
    {
      var index := parse(rows[i].index);
      if index.Raised? {
        return Raised(index.error);
      }
      LoadedStep(parse, rows, i, labels);
      labels := labels[index.value := rows[i].displayName];
      i := i + 1;
    }
    return Ok(labels);
  }

  /** Lines 37-45: `load_audioset_labels`, reading each index with `int`. */
  method LoadAudiosetLabels(rows: seq<Row>) returns (r: Result<map<int, string>>)
    ensures r.Raised? <==> exists j :: 0 <= j < |rows| && ParseInt(rows[j].index).Raised?
    ensures r.Ok? ==> forall k :: k in r.value <==> exists j :: 0 <= j < |rows| && ParseInt(rows[j].index) == Ok(k)
    ensures r.Ok? ==> forall j, k :: 0 <= j < |rows| && LastRowFor(ParseInt, rows, |rows|, j, k) ==>
      k in r.value && r.value[k] == rows[j].displayName
  {
    r := LoadTable(ParseInt, rows);
  }

  /** Line 155: the table's name for `idx`, or "Class <idx>" when it has none. */
  function LabelFor(labels: map<int, string>, idx: nat): (name: string)
    ensures idx in labels ==> name == labels[idx]
    ensures idx !in labels ==> |name| > 6 && name[..6] == "Class " && ParseInt(name[6..]) == Ok(idx)
    // the fallback's number is written as `str` writes it: digits only, no leading zero
    ensures idx !in labels ==>
      IsDigitString(name[6..]) && Value(name[6..]) == idx && (|name| > 7 ==> name[6] != '0')
  {
    if idx in labels then labels[idx]
    else
      var name := "Class " + NatToString(idx);
      assert name[6..] == NatToString(idx);
      ParseIntRoundTrip(idx);
      name
  }

  /** Two indices missing from the table never get the same fallback name. */
  lemma FallbackNamesDistinct(labels: map<int, string>, a: nat, b: nat)
    requires a !in labels && b !in labels && a != b
    ensures LabelFor(labels, a) != LabelFor(labels, b)
  {
    NumberedNamesDistinct("Class ", a, b, "");
    assert "Class " + NatToString(a) + "" == "Class " + NatToString(a);
    assert "Class " + NatToString(b) + "" == "Class " + NatToString(b);
  }

  /** The names of the classifier's top indices, in the classifier's order. */
  function TopLabels(labels: map<int, string>, topIdx: seq<nat>): (names: seq<string>)
    ensures |names| == |topIdx|
    ensures forall k :: 0 <= k < |topIdx| ==> names[k] == LabelFor(labels, topIdx[k])
  {
    seq(|topIdx|, k requires 0 <= k < |topIdx| => LabelFor(labels, topIdx[k]))
  }

  /** Python `xs[:3]`. */
  function Take3<T>(xs: seq<T>): (top: seq<T>)
    ensures |top| == Min(3, |xs|)
    ensures forall k :: 0 <= k < |top| ==> top[k] == xs[k]
  {
    if |xs| <= 3 then xs else xs[..3]
  }

  /** Python `zip` of two lists of equal length. */
  function Zip<A, B>(xs: seq<A>, ys: seq<B>): (pairs: seq<(A, B)>)
    requires |xs| == |ys|
    ensures |pairs| == |xs|
    ensures forall k :: 0 <= k < |xs| ==> pairs[k] == (xs[k], ys[k])
  {
    seq(|xs|, k requires 0 <= k < |xs| => (xs[k], ys[k]))
  }

  /** Lines 193 and 197 slice the names and the probabilities separately and
      zip them: for lists of equal length that is the first three pairs of
      the zipped lists, so every name stays with its own probability. */
  lemma Take3Zip<A, B>(names: seq<A>, probs: seq<B>)
    requires |names| == |probs|
    ensures |Take3(names)| == |Take3(probs)|
    ensures Zip(Take3(names), Take3(probs)) == Take3(Zip(names, probs))
  {
    var left, right := Zip(Take3(names), Take3(probs)), Take3(Zip(names, probs));
    assert |left| == |right|;
    forall k | 0 <= k < |left|
      ensures left[k] == right[k]
    {
      assert left[k] == (names[k], probs[k]);
    }
  }
}
