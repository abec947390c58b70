/** The JavaScript string primitives the client relies on (`indexOf`, `split`,
    `trim`, `startsWith`, `endsWith`, number-to-string), over strings as
    sequences of characters. */
module Text {
  import opened Wrappers

  /** JavaScript truthiness of a `string | null`: present and non-empty. */
  predicate IsSet(s: Option<string>) {
    s.Some? && s.value != ""
  }

  /** The characters `String.prototype.trim` removes: the ECMAScript
      WhiteSpace and LineTerminator code points. */
  predicate IsJsWhitespace(c: char) {
    || c == '\t' || c == '\n' || c == '\U{000B}' || c == '\U{000C}' || c == '\r' || c == ' '
    || c == '\U{00A0}' || c == '\U{1680}' || ('\U{2000}' <= c <= '\U{200A}')
    || c == '\U{2028}' || c == '\U{2029}' || c == '\U{202F}' || c == '\U{205F}'
    || c == '\U{3000}' || c == '\U{FEFF}'
  }

  /** `s.trim() === ''`: every character is whitespace. */
  predicate IsBlank(s: string) {
    forall i :: 0 <= i < |s| ==> IsJsWhitespace(s[i])
  }

  /** Neither end of `s` is whitespace, so `trim` leaves it alone. */
  predicate IsTrimmed(s: string) {
    s == [] || (!IsJsWhitespace(s[0]) && !IsJsWhitespace(s[|s| - 1]))
  }

  predicate StartsWith(s: string, prefix: string) {
    |prefix| <= |s| && s[..|prefix|] == prefix
  }

  predicate EndsWith(s: string, suffix: string) {
    |suffix| <= |s| && s[|s| - |suffix|..] == suffix
  }

  lemma BlankAppend(a: string, b: string)
    ensures IsBlank(a + b) <==> IsBlank(a) && IsBlank(b)
  {
    assert forall i :: 0 <= i < |a| ==> a[i] == (a + b)[i];
    assert forall i :: 0 <= i < |b| ==> b[i] == (a + b)[|a| + i];
  }

  /** `s.indexOf(c)`: the first position of `c`, or -1 when there is none. */
  function IndexOf(s: string, c: char): (r: int)
    ensures -1 <= r < |s|
    ensures r == -1 <==> c !in s
    ensures 0 <= r ==> s[r] == c && c !in s[..r]
  {
    if |s| == 0 then -1
    else if s[0] == c then 0
    else
      var k := IndexOf(s[1..], c);
      assert s == [s[0]] + s[1..];
      if k < 0 then -1
      else
        assert s[..k + 1] == [s[0]] + s[1..][..k];
        k + 1
  }

  /** Appending text after an occurrence of `c` does not move the first occurrence. */
  lemma IndexOfAppend(t: string, x: string, c: char)
    requires c in t
    ensures IndexOf(t + x, c) == IndexOf(t, c)
  {
    var r1, r2 := IndexOf(t + x, c), IndexOf(t, c);
    assert (t + x)[r2] == c;
  }

  /** In `a + [c] + b` with no `c` in `a`, the first `c` is the one after `a`. */
  lemma IndexOfAfter(a: string, c: char, b: string)
    requires c !in a
    ensures IndexOf(a + [c] + b, c) == |a|
    ensures (a + [c] + b)[..|a|] == a && (a + [c] + b)[|a| + 1..] == b
  {
    var s := a + [c] + b;
    assert s[|a|] == c;
  }

  /** Cutting a text at its first occurrence of `c`, with more text appended. */
  lemma CutAt(t: string, c: char, x: string)
    requires 0 <= IndexOf(t, c)
    ensures c !in t[..IndexOf(t, c)]
    ensures t + x == t[..IndexOf(t, c)] + [c] + (t[IndexOf(t, c) + 1..] + x)
  {
    CutAround(t, IndexOf(t, c), x);
  }

  lemma CutAround<T>(t: seq<T>, i: nat, x: seq<T>)
    requires i < |t|
    ensures t + x == t[..i] + [t[i]] + (t[i + 1..] + x)
  {
    var a, r := t[..i], t[i + 1..];
    assert t[i..] == [t[i]] + r;
    assert t == a + ([t[i]] + r);
    AppendAssoc(a, [t[i]], r);
    AppendAssoc(a + [t[i]], r, x);
  }

  lemma NotInAppend<T>(a: seq<T>, b: seq<T>, c: T)
    requires c !in a && c !in b
    ensures c !in a + b
  {
  }

  lemma AppendAssoc<T>(a: seq<T>, b: seq<T>, c: seq<T>)
    ensures (a + b) + c == a + (b + c)
  {
  }

  /** `s.split(sep)` for a one-character separator. */
  function Split(s: string, sep: char): (parts: seq<string>)
    ensures |parts| >= 1
    ensures forall k :: 0 <= k < |parts| ==> sep !in parts[k]
    decreases |s|
  {
    var i := IndexOf(s, sep);
    if i < 0 then [s]
    else [s[..i]] + Split(s[i + 1..], sep)
  }

  /** Joining the parts of a split gives the string back. */
  lemma {:induction false} SplitJoinsBack(s: string, sep: char)
    ensures Join(Split(s, sep), sep) == s
    decreases |s|, 1
  {
    if 0 <= IndexOf(s, sep) {
      SplitJoinsBackCut(s, sep);
    }
  }

  lemma {:induction false} SplitJoinsBackCut(s: string, sep: char)
    requires 0 <= IndexOf(s, sep)
    ensures Join(Split(s, sep), sep) == s
    decreases |s|, 0
  {
    var i := IndexOf(s, sep);
    var rest := Split(s[i + 1..], sep);
    calc {
      Join(Split(s, sep), sep);
      { SplitAt(s, sep); }
      Join([s[..i]] + rest, sep);
      { JoinCons(s[..i], rest, sep); }
      s[..i] + [sep] + Join(rest, sep);
      { SplitJoinsBack(s[i + 1..], sep); }
      s[..i] + [sep] + s[i + 1..];
      { Around(s, i); }
      s;
    }
  }

  /** The first separator cuts off the first part. */
  lemma SplitAt(s: string, sep: char)
    requires 0 <= IndexOf(s, sep)
    ensures Split(s, sep) == [s[..IndexOf(s, sep)]] + Split(s[IndexOf(s, sep) + 1..], sep)
  {
  }

  lemma Around<T>(s: seq<T>, i: nat)
    requires i < |s|
    ensures s[..i] + [s[i]] + s[i + 1..] == s
  {
  }

  lemma JoinCons(head: string, rest: seq<string>, sep: char)
    requires |rest| >= 1
    ensures Join([head] + rest, sep) == head + [sep] + Join(rest, sep)
  {
    assert ([head] + rest)[1..] == rest;
  }

  /** `parts.join(sep)`: the inverse of `Split`. */
  function Join(parts: seq<string>, sep: char): string
    decreases |parts|
  {
    if |parts| == 0 then ""
    else if |parts| == 1 then parts[0]
    else parts[0] + [sep] + Join(parts[1..], sep)
  }

  /** Splitting a joined list gives the list back, provided no part holds the separator. */
  lemma {:induction false} SplitJoin(parts: seq<string>, sep: char)
    requires |parts| >= 1
    requires forall k :: 0 <= k < |parts| ==> sep !in parts[k]
    ensures Split(Join(parts, sep), sep) == parts
    decreases |parts|, 1
  {
    if |parts| == 1 {
      assert IndexOf(parts[0], sep) == -1;
    } else {
      SplitJoinCons(parts, sep);
    }
  }

  lemma {:induction false} SplitJoinCons(parts: seq<string>, sep: char)
    requires |parts| >= 2
    requires forall k :: 0 <= k < |parts| ==> sep !in parts[k]
    ensures Split(Join(parts, sep), sep) == parts
    decreases |parts|, 0
  {
    var head, rest := parts[0], Join(parts[1..], sep);
    assert Join(parts, sep) == head + [sep] + rest;
    IndexOfAfter(head, sep, rest);
    calc {
      Split(head + [sep] + rest, sep);
      { SplitAt(head + [sep] + rest, sep); }
      [head] + Split(rest, sep);
      { SplitJoin(parts[1..], sep); }
      [head] + parts[1..];
      parts;
    }
  }

  /** The number of separators in `s`, which fixes how many parts `Split` returns. */
  function Occurrences(s: string, c: char): nat {
    if |s| == 0 then 0 else (if s[0] == c then 1 else 0) + Occurrences(s[1..], c)
  }

  lemma OccurrencesAppend(a: string, b: string, c: char)
    ensures Occurrences(a + b, c) == Occurrences(a, c) + Occurrences(b, c)
  {
    if |a| > 0 {
      assert (a + b)[1..] == a[1..] + b;
      OccurrencesAppend(a[1..], b, c);
    } else {
      assert a + b == b;
    }
  }

  lemma {:induction false} SplitCount(s: string, sep: char)
    ensures |Split(s, sep)| == Occurrences(s, sep) + 1
    decreases |s|
  {
    var i := IndexOf(s, sep);
    if i < 0 {
      OccurrencesNone(s, sep);
    } else {
      SplitCount(s[i + 1..], sep);
      assert s == s[..i] + [sep] + s[i + 1..];
      OccurrencesAppend(s[..i] + [sep], s[i + 1..], sep);
      OccurrencesAppend(s[..i], [sep], sep);
      OccurrencesNone(s[..i], sep);
    }
  }

  lemma OccurrencesNone(s: string, c: char)
    requires c !in s
    ensures Occurrences(s, c) == 0
  {
    if |s| > 0 {
      assert s[0] != c && c !in s[1..];
      OccurrencesNone(s[1..], c);
    }
  }

  /** Every character of `s` from `lo` up to `hi` is whitespace. */
  predicate BlankBetween(s: string, lo: int, hi: int) {
    forall i :: lo <= i < hi && 0 <= i < |s| ==> IsJsWhitespace(s[i])
  }

  /** How many whitespace characters begin `s`. */
  function LeadingBlanks(s: string): (n: nat)
    ensures n <= |s| && BlankBetween(s, 0, n)
    ensures n < |s| ==> !IsJsWhitespace(s[n])
  {
    if |s| == 0 || !IsJsWhitespace(s[0]) then 0
    else 1 + LeadingBlanks(s[1..])
  }

  /** How many whitespace characters end `s`. */
  function TrailingBlanks(s: string): (n: nat)
    ensures n <= |s| && BlankBetween(s, |s| - n, |s|)
    ensures n < |s| ==> !IsJsWhitespace(s[|s| - n - 1])
  {
    if |s| == 0 || !IsJsWhitespace(s[|s| - 1]) then 0
    else 1 + TrailingBlanks(s[..|s| - 1])
  }

  /** `s.trim()`: `s` without its leading and trailing whitespace. */
  function Trim(s: string): (r: string)
    ensures r == [] <==> IsBlank(s)
    ensures IsTrimmed(r)
  {
    var a, t := LeadingBlanks(s), TrailingBlanks(s);
    if a < |s| - t then
      assert s[a] == s[a..|s| - t][0];
      s[a..|s| - t]
    else
      assert IsBlank(s) by {
        if !IsBlank(s) {
          BlanksDoNotMeet(s);
        }
      }
      []
  }

  /** What `Trim` removes is whitespace at either end, and only that. */
  lemma TrimSlice(s: string)
    ensures LeadingBlanks(s) + |Trim(s)| <= |s|
    ensures Trim(s) == s[LeadingBlanks(s)..LeadingBlanks(s) + |Trim(s)|]
    ensures IsBlank(s[..LeadingBlanks(s)]) && IsBlank(s[LeadingBlanks(s) + |Trim(s)|..])
  {
    var a, t := LeadingBlanks(s), TrailingBlanks(s);
    BlankPrefix(s, a);
    if a < |s| - t {
      BlankSuffix(s, |s| - t);
    } else {
      BlankSuffix(s, a);
    }
  }

  lemma BlankPrefix(s: string, n: nat)
    requires n <= |s| && BlankBetween(s, 0, n)
    ensures IsBlank(s[..n])
  {
    assert forall i :: 0 <= i < n ==> s[..n][i] == s[i];
  }

  lemma BlankSuffix(s: string, m: nat)
    requires m <= |s| && BlankBetween(s, m, |s|)
    ensures IsBlank(s[m..])
  {
    assert forall i :: 0 <= i < |s| - m ==> s[m..][i] == s[m + i];
  }

  lemma TrimOfTrimmed(s: string)
    requires IsTrimmed(s)
    ensures Trim(s) == s
  {
    if s != [] {
      assert LeadingBlanks(s) == 0;
      assert TrailingBlanks(s) == 0;
    }
  }

  lemma {:induction false} LeadingBlanksAppend(s: string, x: string)
    requires !IsBlank(s)
    ensures LeadingBlanks(s + x) == LeadingBlanks(s)
  {
    if IsJsWhitespace(s[0]) {
      assert (s + x)[1..] == s[1..] + x;
      assert !IsBlank(s[1..]) by {
        var j :| 0 <= j < |s| && !IsJsWhitespace(s[j]);
        assert s[1..][j - 1] == s[j];
      }
      LeadingBlanksAppend(s[1..], x);
    }
  }

  lemma TrailingBlanksSnoc(s: string, c: char)
    requires IsJsWhitespace(c)
    ensures TrailingBlanks(s + [c]) == TrailingBlanks(s) + 1
  {
    assert (s + [c])[..|s|] == s;
  }

  lemma LeadingBlanksAll(s: string)
    ensures LeadingBlanks(s) == |s| ==> IsBlank(s)
  {
  }
  lemma TrailingCovers(s: string, k: nat)
    requires k < |s|
    ensures |s| - TrailingBlanks(s) <= k ==> IsJsWhitespace(s[k])
  {
  }
  /** In text that is not all whitespace, the leading and the trailing
      whitespace do not meet. */
  lemma BlanksDoNotMeet(s: string)
    requires !IsBlank(s)
    ensures LeadingBlanks(s) < |s| - TrailingBlanks(s)
  {
    LeadingBlanksAll(s);
    TrailingCovers(s, LeadingBlanks(s));
  }

  /** A trailing whitespace character never survives `trim`. */
  lemma TrimAppendBlank(s: string, c: char)
    requires IsJsWhitespace(c)
    ensures Trim(s + [c]) == Trim(s)
  {
    if IsBlank(s) {
      BlankAppend(s, [c]);
    } else {
      TrimAppendBlankInner(s, c);
    }
  }

  lemma TrimAppendBlankInner(s: string, c: char)
    requires IsJsWhitespace(c) && !IsBlank(s)
    ensures Trim(s + [c]) == Trim(s)
  {
    var u := s + [c];
    LeadingBlanksAppend(s, [c]);
    TrailingBlanksSnoc(s, c);
    BlanksDoNotMeet(s);
    SnocSlice(s, c, LeadingBlanks(s), |s| - TrailingBlanks(s));
  }

  lemma SnocSlice<T>(s: seq<T>, x: T, lo: nat, hi: nat)
    requires lo <= hi <= |s|
    ensures (s + [x])[lo..hi] == s[lo..hi]
  {
  }

  function DigitChar(d: nat): (c: char)
    requires d < 10
    ensures '0' <= c <= '9' && c as int - '0' as int == d
  {
    (d + '0' as int) as char
  }

  predicate IsDigits(s: string) {
    forall i :: 0 <= i < |s| ==> '0' <= s[i] <= '9'
  }

  /** The number a string of decimal digits denotes. */
  function DecimalValue(s: string): nat
    requires IsDigits(s)
  {
    if |s| == 0 then 0
    else DecimalValue(s[..|s| - 1]) * 10 + (s[|s| - 1] as int - '0' as int)
  }

  /** The decimal rendering of a status code in a template string. */
  function NatToString(n: nat): (r: string)
    ensures |r| >= 1 && IsDigits(r)
    ensures DecimalValue(r) == n
    ensures r[0] != '0' || r == "0"
  {
    if n < 10 then [DigitChar(n)]
    else
      var init := NatToString(n / 10);
      var r := init + [DigitChar(n % 10)];
      assert r[..|r| - 1] == init;
      r
  }

  /** A decimal numeral with no leading zero. */
  predicate IsNumeral(r: string) {
    |r| >= 1 && IsDigits(r) && (r[0] != '0' || r == "0")
  }

  lemma {:induction false} LeadingDigitPositive(r: string)
    requires |r| >= 1 && IsDigits(r) && r[0] != '0'
    ensures DecimalValue(r) >= 1
    decreases |r|
  {
    if |r| > 1 {
      LeadingDigitPositive(r[..|r| - 1]);
    }
  }

  /** `NatToString` gives the only numeral for `n`: a string of digits
      with no leading zero that denotes `n` is the one it prints. */
  lemma {:induction false} NumeralIsUnique(r: string, n: nat)
    requires IsNumeral(r) && DecimalValue(r) == n
    ensures r == NatToString(n)
    decreases |r|
  {
    if |r| > 1 {
      var init := r[..|r| - 1];
      var d := r[|r| - 1] as int - '0' as int;
      LeadingDigitPositive(init);
      assert n == DecimalValue(init) * 10 + d && 0 <= d < 10;
      assert n / 10 == DecimalValue(init) && n % 10 == d;
      NumeralIsUnique(init, n / 10);
      assert r == init + [r[|r| - 1]];
    }
  }
}
