/**
  String operations of Python's `str` that the scripts rely on: `in` on strings,
  `lower`, `endswith`, `split`, `join` and the decimal conversions done by `int()`
  and `str()` on natural numbers. Letters and digits are ASCII only; whitespace is
  Python's full set.
 */
module Text {
  import opened Wrappers

  predicate IsDigit(c: char) {
    '0' <= c <= '9'
  }

  predicate AllDigits(s: string) {
    forall k | 0 <= k < |s| :: IsDigit(s[k])
  }

  /** Python's `str.isspace()` characters, which `split()` and `int()` strip. */
  predicate IsSpace(c: char) {
    || ('\t' <= c <= '\r')
    || ('\U{1C}' <= c <= ' ')
    || c == '\U{85}' || c == '\U{A0}' || c == '\U{1680}'
    || ('\U{2000}' <= c <= '\U{200A}')
    || c == '\U{2028}' || c == '\U{2029}' || c == '\U{202F}' || c == '\U{205F}' || c == '\U{3000}'
  }

  function DigitChar(d: nat): (c: char)
    requires d < 10
    ensures IsDigit(c) && c as int - '0' as int == d
  {
    ('0' as int + d) as char
  }

  function DigitValue(c: char): (d: nat)
    requires IsDigit(c)
    ensures d < 10 && DigitChar(d) == c
  {
    c as int - '0' as int
  }

  /** The value of a run of decimal digits, most significant first. */
  function DigitsValue(s: string): nat
    requires AllDigits(s)
    decreases |s|
  {
    if |s| == 0 then 0 else DigitsValue(s[..|s| - 1]) * 10 + DigitValue(s[|s| - 1])
  }

  /** Python's `str(n)` for a natural number. */
  function NatToString(n: nat): (s: string)
    ensures 0 < |s| && AllDigits(s)
    decreases n
  {
    if n < 10 then [DigitChar(n)] else NatToString(n / 10) + [DigitChar(n % 10)]
  }

  lemma {:induction false} NatToStringRoundTrip(n: nat)
    ensures DigitsValue(NatToString(n)) == n
    decreases n
  {
    if n >= 10 {
      var s := NatToString(n);
      assert s[..|s| - 1] == NatToString(n / 10);
      NatToStringRoundTrip(n / 10);
    }
  }

  /**
    Python's `int(s)` on a string: surrounding whitespace is ignored, one sign
    is allowed, and then at least one decimal digit and nothing else.
   */
  function ParseInt(s: string): Option<int> {
    ParseStripped(Strip(s))
  }

  /** `int()` after stripping: one optional sign, then at least one digit and nothing else. */
  function ParseStripped(t: string): Option<int> {
    if |t| > 1 && (t[0] == '+' || t[0] == '-') && AllDigits(t[1..]) then
      Some(if t[0] == '-' then -(DigitsValue(t[1..]) as int) else DigitsValue(t[1..]))
    else if |t| > 0 && AllDigits(t) then
      Some(DigitsValue(t))
    else None
  }

  function StripLeft(s: string): (t: string)
    ensures |t| <= |s| && t == s[|s| - |t|..]
    ensures |t| > 0 ==> !IsSpace(t[0])
  {
    if |s| > 0 && IsSpace(s[0]) then StripLeft(s[1..]) else s
  }

  function StripRight(s: string): (t: string)
    ensures |t| <= |s| && t == s[..|t|]
    ensures |t| > 0 ==> !IsSpace(t[|t| - 1])
  {
    if |s| > 0 && IsSpace(s[|s| - 1]) then StripRight(s[..|s| - 1]) else s
  }

  /** Python's `s.strip()`: leading and trailing `str.isspace()` characters removed. */
  function Strip(s: string): string {
    StripRight(StripLeft(s))
  }

  lemma ParseIntOfNat(n: nat)
    ensures ParseInt(NatToString(n)) == Some(n as int)
  {
    ParseIntDigits(NatToString(n));
    NatToStringRoundTrip(n);
  }

  /** `int()` of a run of digits is the value of the digits. */
  lemma ParseIntDigits(s: string)
    requires 0 < |s| && AllDigits(s)
    ensures ParseInt(s) == Some(DigitsValue(s) as int)
  {
    DigitsUnstripped(s);
    ParseStrippedDigits(s);
  }

  /** An unsigned run of digits parses to its value. */
  lemma ParseStrippedDigits(t: string)
    requires 0 < |t| && AllDigits(t)
    ensures ParseStripped(t) == Some(DigitsValue(t) as int)
  {
    assert IsDigit(t[0]);
  }

  /** A run of digits has no whitespace to strip. */
  lemma DigitsUnstripped(s: string)
    requires 0 < |s| && AllDigits(s)
    ensures Strip(s) == s
  {
    assert IsDigit(s[0]) && IsDigit(s[|s| - 1]);
    StripLeftWord(s);
    assert StripRight(s) == s;
  }

  function Lower(c: char): char {
    if 'A' <= c <= 'Z' then (c as int + 32) as char else c
  }

  /** Python's `s.lower()` on ASCII letters. */
  function LowerStr(s: string): (t: string)
    ensures |t| == |s| && forall k | 0 <= k < |s| :: t[k] == Lower(s[k])
  {
    seq(|s|, k requires 0 <= k < |s| => Lower(s[k]))
  }

  predicate StartsWith(s: string, prefix: string) {
    |prefix| <= |s| && s[..|prefix|] == prefix
  }

  predicate EndsWith(s: string, suffix: string) {
    |suffix| <= |s| && s[|s| - |suffix|..] == suffix
  }

  /** Python's `sub in s`. */
  predicate Contains(s: string, sub: string) {
    exists k | 0 <= k <= |s| - |sub| :: StartsWith(s[k..], sub)
  }

  function FirstIndex(s: string, c: char): (i: nat)
    requires c in s
    ensures i < |s| && s[i] == c && c !in s[..i]
  {
    if s[0] == c then 0 else FirstIndex(s[1..], c) + 1
  }

  /** Python's `s.split(sep)` for a one-character separator. */
  function Split(s: string, sep: char): (parts: seq<string>)
    ensures 0 < |parts|
    ensures forall k | 0 <= k < |parts| :: sep !in parts[k]
    decreases |s|
  {
    if sep !in s then [s]
    else
      var i := FirstIndex(s, sep);
      [s[..i]] + Split(s[i + 1..], sep)
  }

  /** Python's `sep.join(parts)`. */
  function Join(parts: seq<string>, sep: string): string {
    if |parts| == 0 then ""
    else if |parts| == 1 then parts[0]
    else parts[0] + sep + Join(parts[1..], sep)
  }

  lemma {:induction false} SplitJoinRoundTrip(s: string, sep: char)
    ensures Join(Split(s, sep), [sep]) == s
    decreases |s|
  {
    if sep in s {
      var i := FirstIndex(s, sep);
      SplitJoinRoundTrip(s[i + 1..], sep);
      assert s == s[..i] + [sep] + s[i + 1..];
    }
  }

  lemma {:induction false} FirstIndexAt(s: string, c: char, i: nat)
    requires i < |s| && s[i] == c && c !in s[..i]
    ensures c in s && FirstIndex(s, c) == i
  {
    if i > 0 {
      assert s[0] == s[..i][0];
      assert s[1..][..i - 1] == s[..i][1..];
      FirstIndexAt(s[1..], c, i - 1);
    }
  }

  lemma {:induction false} JoinSplitRoundTrip(parts: seq<string>, sep: char)
    requires 0 < |parts|
    requires forall k | 0 <= k < |parts| :: sep !in parts[k]
    ensures Split(Join(parts, [sep]), sep) == parts
  {
    if |parts| > 1 {
      var rest := Join(parts[1..], [sep]);
      JoinSplitRoundTrip(parts[1..], sep);
      SplitAfter(parts[0], sep, rest);
      assert parts == [parts[0]] + parts[1..];
    }
  }

  /** A separator-free prefix followed by the separator splits off as the first part. */
  lemma SplitAfter(head: string, sep: char, rest: string)
    requires sep !in head
    ensures Split(head + [sep] + rest, sep) == [head] + Split(rest, sep)
  {
    var s := head + [sep] + rest;
    assert s[..|head|] == head;
    SplitAtFirst(s, sep, |head|);
    assert s[|head| + 1..] == rest;
  }

  /** A non-empty string with no whitespace in it. */
  predicate IsWord(w: string) {
    0 < |w| && forall k {:trigger IsSpace(w[k])} | 0 <= k < |w| :: !IsSpace(w[k])
  }

  /** A run of non-space characters at the front of `t` is a word. */
  lemma WordPrefix(t: string, e: nat)
    requires 0 < e <= |t| && forall k | 0 <= k < e :: !IsSpace(t[k])
    ensures IsWord(t[..e])
  {
  }

  /** Putting a word in front of a list of words gives a list of words. */
  lemma WordsCons(x: string, rest: seq<string>)
    requires IsWord(x) && forall w | w in rest :: IsWord(w)
    ensures forall w | w in [x] + rest :: IsWord(w)
  {
  }

  /** Python's `s.split()` with no argument: the maximal runs of non-space characters. */
  function SplitWhitespace(s: string): (words: seq<string>)
    ensures forall w | w in words :: 0 < |w|
    decreases |s|
  {
    var t := StripLeft(s);
    if |t| == 0 then []
    else
      var e := WordEnd(t, 0);
      var rest := SplitWhitespace(t[e..]);
      [t[..e]] + rest
  }

  /** Every word `split()` returns is free of whitespace. */
  lemma {:induction false} SplitWhitespaceWords(s: string)
    ensures forall w | w in SplitWhitespace(s) :: IsWord(w)
    decreases |s|
  {
    var t := StripLeft(s);
    if |t| > 0 {
      var e := WordEnd(t, 0);
      SplitWhitespaceWords(t[e..]);
      WordPrefix(t, e);
      assert SplitWhitespace(s) == [t[..e]] + SplitWhitespace(t[e..]);
      WordsCons(t[..e], SplitWhitespace(t[e..]));
    }
  }

  /** Splitting words joined by single spaces gives the words back. */
  lemma {:induction false} JoinSplitWhitespace(ws: seq<string>)
    requires forall w | w in ws :: IsWord(w)
    ensures SplitWhitespace(Join(ws, " ")) == ws
    decreases |ws|
  {
    if |ws| == 1 {
      assert ws[0] in ws;
      SplitOneWord(ws[0]);
    } else if |ws| > 1 {
      assert forall v | v in ws[1..] :: v in ws;
      JoinSplitWhitespace(ws[1..]);
      assert ws[0] in ws && ws[1] in ws;
      JoinSplitStep(ws);
    }
  }

  /** The inductive step of `JoinSplitWhitespace`: one more word in front. */
  lemma JoinSplitStep(ws: seq<string>)
    requires 1 < |ws| && IsWord(ws[0]) && IsWord(ws[1])
    requires SplitWhitespace(Join(ws[1..], " ")) == ws[1..]
    ensures SplitWhitespace(Join(ws, " ")) == ws
  {
    var rest := Join(ws[1..], " ");
    JoinStartsWithWord(ws[1..]);
    JoinCons(ws, " ");
    SplitFirstWord(ws[0], rest, Join(ws, " "));
    assert [ws[0]] + ws[1..] == ws;
  }

  /** `Join` of two or more parts is the first part, the separator, and the rest joined. */
  lemma JoinCons(ws: seq<string>, sep: string)
    requires 1 < |ws|
    ensures Join(ws, sep) == ws[0] + sep + Join(ws[1..], sep)
  {
  }

  /** A single word splits to itself. */
  lemma SplitOneWord(w: string)
    requires IsWord(w)
    ensures SplitWhitespace(w) == [w]
  {
    StripLeftWord(w);
    WordEndWhole(w);
    assert w[..|w|] == w;
    assert SplitWhitespace(w[|w|..]) == [];
  }

  /** A word, a space and a string starting with a non-space: the word comes off first. */
  lemma SplitFirstWord(w: string, rest: string, s: string)
    requires IsWord(w) && 0 < |rest| && !IsSpace(rest[0]) && s == w + " " + rest
    ensures SplitWhitespace(s) == [w] + SplitWhitespace(rest)
  {
    StripLeftWord(s);
    WordEndAtSpace(s, |w|);
    assert s[..|w|] == w;
    var tail := s[|w|..];
    assert tail[1..] == rest;
    StripLeftWord(rest);
    assert StripLeft(tail) == rest;
  }

  /** Stripping leaves a string that starts with a non-space unchanged. */
  lemma StripLeftWord(s: string)
    requires 0 < |s| && !IsSpace(s[0])
    ensures StripLeft(s) == s
  {
  }

  /** In a word, the word starting at 0 runs to the end. */
  lemma WordEndWhole(w: string)
    requires IsWord(w)
    ensures WordEnd(w, 0) == |w|
  {
  }

  /** A space-joined list of words starts with its first word's first character. */
  lemma JoinStartsWithWord(ws: seq<string>)
    requires 0 < |ws| && 0 < |ws[0]|
    ensures 0 < |Join(ws, " ")| && Join(ws, " ")[0] == ws[0][0]
  {
  }

  /** The word starting at 0 ends at the first space. */
  lemma WordEndAtSpace(s: string, i: nat)
    requires 0 < i < |s| && IsSpace(s[i]) && forall k | 0 <= k < i :: !IsSpace(s[k])
    ensures WordEnd(s, 0) == i
  {
    var e := WordEnd(s, 0);
    assert e <= i;
  }

  function WordEnd(s: string, i: nat): (e: nat)
    requires i < |s| && !IsSpace(s[i])
    ensures i < e <= |s|
    ensures forall k | i <= k < e :: !IsSpace(s[k])
    ensures e < |s| ==> IsSpace(s[e])
    decreases |s| - i
  {
    if i + 1 < |s| && !IsSpace(s[i + 1]) then WordEnd(s, i + 1) else i + 1
  }

  /** Splitting at the first separator: the part before it, then the split of the rest. */
  lemma SplitAtFirst(s: string, sep: char, i: nat)
    requires i < |s| && s[i] == sep && sep !in s[..i]
    ensures Split(s, sep) == [s[..i]] + Split(s[i + 1..], sep)
  {
    FirstIndexAt(s, sep, i);
  }

  lemma NotInDigits(s: string, c: char)
    requires AllDigits(s) && !IsDigit(c)
    ensures c !in s
  {
  }

  /** A string with exactly one separator splits into the parts on either side of it. */
  lemma SplitTwo(pre: string, sep: char, post: string)
    requires sep !in pre && sep !in post
    ensures Split(pre + [sep] + post, sep) == [pre, post]
  {
    var s := pre + [sep] + post;
    assert s[..|pre|] == pre;
    SplitAtFirst(s, sep, |pre|);
    assert s[|pre| + 1..] == post;
  }

  /** Python's `s.replace(c, repl)` for a one-character pattern. */
  function Replace(s: string, c: char, repl: string): (r: string)
    ensures c !in s ==> r == s
  {
    if |s| == 0 then ""
    else (if s[0] == c then repl else [s[0]]) + Replace(s[1..], c, repl)
  }

  lemma {:induction false} ReplaceConcat(a: string, b: string, c: char, repl: string)
    ensures Replace(a + b, c, repl) == Replace(a, c, repl) + Replace(b, c, repl)
  {
    if |a| > 0 {
      assert (a + b)[1..] == a[1..] + b;
      ReplaceConcat(a[1..], b, c, repl);
    } else {
      assert a + b == b;
    }
  }

  /** Replacing the separator of a join re-joins the same parts with the replacement. */
  lemma {:induction false} ReplaceJoin(parts: seq<string>, c: char, repl: string)
    requires forall k | 0 <= k < |parts| :: c !in parts[k]
    ensures Replace(Join(parts, [c]), c, repl) == Join(parts, repl)
  {
    if |parts| > 1 {
      var head, rest := parts[0], Join(parts[1..], [c]);
      ReplaceConcat(head + [c], rest, c, repl);
      ReplaceConcat(head, [c], c, repl);
      assert Replace([c], c, repl) == repl + Replace([], c, repl);
      assert repl + Replace([], c, repl) == repl;
      assert Replace(head + [c], c, repl) == head + repl;
      ReplaceJoin(parts[1..], c, repl);
      assert Replace(Join(parts, [c]), c, repl) == head + repl + Replace(rest, c, repl);
    }
  }
}
