/**
  Parsing of PEB parameter names such as "A(3,1)" (`PEBDataLoader.parse_parameter_names`
  in plot_PEB_results.py).

  The source searches each name with the regular expression
      (?P<field>[A-Za-z0-9{},]+)\((?P<row>\d+)(,|\))(?P<col>\d+)?(,|\))?
  and takes the leftmost match. Because `(` is not a field character and the
  character after the row digits must be `,` or `)`, each greedy group has exactly
  one way to succeed, so the match found at a given start position is the
  deterministic scan written in `MatchAt`.
 */
module PebNames {
  import opened Wrappers
  import opened Text

  /** One parsed name: `row` and `col` stay 1-based, as in the source. */
  datatype ParamPart = ParamPart(field: string, row: Option<nat>, col: Option<nat>)

  predicate IsFieldChar(c: char) {
    'A' <= c <= 'Z' || 'a' <= c <= 'z' || IsDigit(c) || c == '{' || c == '}' || c == ','
  }

  /** End of the longest run of field characters starting at `i`. */
  function FieldEnd(s: string, i: nat): (e: nat)
    requires i <= |s|
    ensures i <= e <= |s|
    ensures forall k | i <= k < e :: IsFieldChar(s[k])
    ensures e < |s| ==> !IsFieldChar(s[e])
    decreases |s| - i
  {
    if i < |s| && IsFieldChar(s[i]) then FieldEnd(s, i + 1) else i
  }

  /** End of the longest run of decimal digits starting at `i`. */
  function DigitEnd(s: string, i: nat): (e: nat)
    requires i <= |s|
    ensures i <= e <= |s|
    ensures AllDigits(s[i..e])
    ensures e < |s| ==> !IsDigit(s[e])
    decreases |s| - i
  {
    if i < |s| && IsDigit(s[i]) then
      var e := DigitEnd(s, i + 1);
      assert s[i..e] == [s[i]] + s[i + 1..e];
      e
    else i
  }

  /** The regular expression anchored at position `start`, or None when it does not match there. */
  function MatchAt(s: string, start: nat): Option<ParamPart>
    requires start <= |s|
  {
    var p := FieldEnd(s, start);
    if p == start || p == |s| || s[p] != '(' then None
    else
      var q := DigitEnd(s, p + 1);
      if q == p + 1 || q == |s| || (s[q] != ',' && s[q] != ')') then None
      else
        var r := DigitEnd(s, q + 1);
        var col := if r == q + 1 then None else Some(DigitsValue(s[q + 1..r]));
        Some(ParamPart(s[start..p], Some(DigitsValue(s[p + 1..q])), col))
  }

  /** `re.search`: the match at the leftmost start position `>= start` where there is one. */
  function SearchFrom(s: string, start: nat): Option<ParamPart>
    requires start <= |s|
    decreases |s| - start
  {
    match MatchAt(s, start)
    case Some(m) => Some(m)
    case None => if start == |s| then None else SearchFrom(s, start + 1)
  }

  /** One name: the fields of the leftmost match, or the whole name with no indices. */
  function ParseParameterName(name: string): ParamPart {
    match SearchFrom(name, 0)
    case Some(m) => m
    case None => ParamPart(name, None, None)
  }

  /** `parse_parameter_names`: one record per name, in order. */
  method ParseParameterNames(pnames: seq<string>) returns (parts: seq<ParamPart>)
    ensures |parts| == |pnames|
    ensures forall k | 0 <= k < |pnames| :: parts[k] == ParseParameterName(pnames[k])
  {
    parts := [];
    for k := 0 to |pnames|
      invariant |parts| == k
      invariant forall m | 0 <= m < k :: parts[m] == ParseParameterName(pnames[m])
    {
      parts := parts + [ParseParameterName(pnames[k])];
    }
  }

  /** The name DCM gives the connection from region `col` to region `row` of matrix `field`. */
  function FormatName(field: string, row: nat, col: nat): string {
    field + "(" + NatToString(row) + "," + NatToString(col) + ")"
  }

  predicate IsFieldName(field: string) {
    0 < |field| && forall k | 0 <= k < |field| :: IsFieldChar(field[k])
  }

  lemma {:induction false} FieldEndOfRun(s: string, i: nat, e: nat)
    requires i <= e <= |s|
    requires forall k | i <= k < e :: IsFieldChar(s[k])
    requires e < |s| ==> !IsFieldChar(s[e])
    ensures FieldEnd(s, i) == e
    decreases e - i
  {
    if i < e {
      FieldEndOfRun(s, i + 1, e);
    }
  }

  lemma {:induction false} DigitEndOfRun(s: string, i: nat, e: nat)
    requires i <= e <= |s|
    requires forall k | i <= k < e :: IsDigit(s[k])
    requires e < |s| ==> !IsDigit(s[e])
    ensures DigitEnd(s, i) == e
    decreases e - i
  {
    if i < e {
      DigitEndOfRun(s, i + 1, e);
    }
  }

  /** Parsing a well-formed two-index name gives back its field and both 1-based indices. */
  lemma FormatNameRoundTrip(field: string, row: nat, col: nat)
    requires IsFieldName(field)
    ensures ParseParameterName(FormatName(field, row, col)) == ParamPart(field, Some(row), Some(col))
  {
    var rs, cs := NatToString(row), NatToString(col);
    var s := FormatName(field, row, col);
    var p := |field|;
    var q := p + 1 + |rs|;
    var r := q + 1 + |cs|;
    assert |s| == r + 1;
    assert s[..p] == field;
    assert s[p] == '(';
    assert s[p + 1..q] == rs;
    assert s[q] == ',';
    assert s[q + 1..r] == cs;
    assert s[r] == ')';
    FieldEndOfRun(s, 0, p);
    forall k | p + 1 <= k < q ensures IsDigit(s[k]) {
      assert s[k] == rs[k - (p + 1)];
    }
    DigitEndOfRun(s, p + 1, q);
    forall k | q + 1 <= k < r ensures IsDigit(s[k]) {
      assert s[k] == cs[k - (q + 1)];
    }
    DigitEndOfRun(s, q + 1, r);
    NatToStringRoundTrip(row);
    NatToStringRoundTrip(col);
  }

  /** A single-index name such as "A(3)" parses with no column. */
  lemma SingleIndexName(field: string, row: nat)
    requires IsFieldName(field)
    ensures ParseParameterName(field + "(" + NatToString(row) + ")") == ParamPart(field, Some(row), None)
  {
    var rs := NatToString(row);
    var s := field + "(" + rs + ")";
    var p := |field|;
    var q := p + 1 + |rs|;
    assert |s| == q + 1;
    assert s[..p] == field;
    assert s[p] == '(';
    assert s[p + 1..q] == rs;
    assert s[q] == ')';
    FieldEndOfRun(s, 0, p);
    forall k | p + 1 <= k < q ensures IsDigit(s[k]) {
      assert s[k] == rs[k - (p + 1)];
    }
    DigitEndOfRun(s, p + 1, q);
    DigitEndOfRun(s, q + 1, q + 1);
    NatToStringRoundTrip(row);
  }

  lemma {:induction false} NoMatchWithoutParen(s: string, start: nat)
    requires start <= |s|
    requires '(' !in s
    ensures SearchFrom(s, start) == None
    decreases |s| - start
  {
    var p := FieldEnd(s, start);
    if p < |s| {
      assert s[p] in s;
    }
    if start < |s| {
      NoMatchWithoutParen(s, start + 1);
    }
  }

  /** A name without "(" does not match: the record keeps the name and has no indices. */
  lemma NameWithoutParen(name: string)
    requires '(' !in name
    ensures ParseParameterName(name) == ParamPart(name, None, None)
  {
    NoMatchWithoutParen(name, 0);
  }

  /** Any record with a column also has a row, and a record without a row is the unparsed name. */
  lemma {:induction false} ParsedShape(name: string)
    ensures ParseParameterName(name).col.Some? ==> ParseParameterName(name).row.Some?
    ensures ParseParameterName(name).row.None? ==> ParseParameterName(name) == ParamPart(name, None, None)
  {
    SearchShape(name, 0);
  }

  lemma {:induction false} SearchShape(s: string, start: nat)
    requires start <= |s|
    ensures SearchFrom(s, start).Some? ==> SearchFrom(s, start).value.row.Some?
    decreases |s| - start
  {
    if MatchAt(s, start).None? && start < |s| {
      SearchShape(s, start + 1);
    }
  }
}
