/** The Python string primitives the response decoders rely on: `str.strip()`,
    `str.split(c)`, `str.replace(a, b)`, the slice `s[1:-1]`, `int(s)`, and the
    two regular-expression lookups the decoders use, modelled exactly for the
    patterns they are called with. Strings are sequences of Unicode scalar
    values; a Python `str` may also hold a lone surrogate, which has no
    counterpart here. */
module Text {
  import opened Wrappers

  /** Python's `str.isspace()` for one character: the ASCII whitespace
      characters, the four information separators and the Unicode space
      separators. */
  predicate IsSpace(c: char) {
    || c == ' ' || c == '\t' || c == '\n' || c == '\r' || c == '\U{0B}' || c == '\U{0C}'
    || ('\U{1C}' <= c <= '\U{1F}')
    || c == '\U{85}' || c == '\U{A0}' || c == '\U{1680}'
    || ('\U{2000}' <= c <= '\U{200A}')
    || c == '\U{2028}' || c == '\U{2029}' || c == '\U{202F}' || c == '\U{205F}' || c == '\U{3000}'
  }

  /** Neither end of `s` is whitespace: what `strip()` produces. */
  predicate IsStripped(s: string) {
    |s| == 0 || (!IsSpace(s[0]) && !IsSpace(s[|s| - 1]))
  }

  /** The length of the whitespace run at the start of `s`. */
  function LeadingSpace(s: string): (n: nat)
    ensures n <= |s|
    ensures forall i {:trigger IsSpace(s[i])} :: 0 <= i < n ==> IsSpace(s[i])
    ensures n < |s| ==> !IsSpace(s[n])
  {
    if |s| > 0 && IsSpace(s[0]) then 1 + LeadingSpace(s[1..]) else 0
  }

  /** The length of the whitespace run at the end of `s`. */
  function TrailingSpace(s: string): (n: nat)
    ensures n <= |s|
    ensures forall i {:trigger IsSpace(s[i])} :: |s| - n <= i < |s| ==> IsSpace(s[i])
    ensures n < |s| ==> !IsSpace(s[|s| - n - 1])
  {
    if |s| > 0 && IsSpace(s[|s| - 1]) then 1 + TrailingSpace(s[..|s| - 1]) else 0
  }

  /** Python's `s.strip()`: `s` without its leading and trailing whitespace. */
  function Strip(s: string): (r: string)
    ensures IsStripped(r)
    ensures IsStripped(s) ==> r == s
    ensures r == [] <==> forall i :: 0 <= i < |s| ==> IsSpace(s[i])
    ensures |r| <= |s| && forall c :: c in r ==> c in s
  {
    var t := s[LeadingSpace(s)..];
    t[..|t| - TrailingSpace(t)]
  }

  /** Whitespace around a stripped, non-empty text is exactly what `strip()` removes. */
  lemma StripPadded(a: string, x: string, b: string)
    requires forall i :: 0 <= i < |a| ==> IsSpace(a[i])
    requires forall i :: 0 <= i < |b| ==> IsSpace(b[i])
    requires |x| > 0 && IsStripped(x)
    ensures Strip(a + x + b) == x
  {
    var s := a + x + b;
    var lead := LeadingSpace(s);
    assert forall i :: 0 <= i < |a| ==> s[i] == a[i];
    assert s[|a|] == x[0];
    assert lead == |a|;
    var t := s[lead..];
    assert t == x + b;
    var trail := TrailingSpace(t);
    assert forall i :: |x| <= i < |t| ==> t[i] == b[i - |x|];
    assert t[|x| - 1] == x[|x| - 1];
    assert trail == |b|;
    assert t[..|t| - trail] == x;
  }

  /** `strip()` keeps everything between two non-whitespace characters. */
  lemma StripKeepsSpan(s: string, i: int, j: int)
    requires 0 <= i <= j < |s|
    requires !IsSpace(s[i]) && !IsSpace(s[j])
    ensures |Strip(s)| >= j - i + 1
  {
    var lead := LeadingSpace(s);
    assert lead <= i;
    var t := s[lead..];
    var trail := TrailingSpace(t);
    assert t[j - lead] == s[j];
    assert trail <= |t| - 1 - (j - lead);
  }

  // ---------------------------------------------------------------------------
  // Substring search

  /** `pat` occurs in `s` starting at index `i`. */
  predicate OccursAt(s: string, pat: string, i: int) {
    0 <= i && i + |pat| <= |s| && s[i..i + |pat|] == pat
  }

  ghost predicate Occurs(s: string, pat: string) {
    exists i :: OccursAt(s, pat, i)
  }

  /** What an occurrence says about one of its characters. */
  lemma OccursChar(s: string, pat: string, i: int, k: int)
    ensures OccursAt(s, pat, i) && 0 <= k < |pat| ==> s[i + k] == pat[k] && s[i + k] in pat
  {
    if OccursAt(s, pat, i) && 0 <= k < |pat| {
      assert s[i..i + |pat|][k] == s[i + k];
    }
  }

  /** The first index at or after `from` where `pat` occurs in `s`. */
  function FindFrom(pat: string, s: string, from: nat): (r: Option<nat>)
    ensures r.Some? ==> from <= r.value && OccursAt(s, pat, r.value)
    ensures r.Some? ==> forall j :: from <= j < r.value ==> !OccursAt(s, pat, j)
    ensures r.None? ==> forall j :: from <= j ==> !OccursAt(s, pat, j)
    decreases |s| - from
  {
    if from + |pat| > |s| then None
    else if s[from..from + |pat|] == pat then Some(from)
    else FindFrom(pat, s, from + 1)
  }

  /** The index of the first occurrence of `pat` in `s`: where the first match
      of a regular expression that starts with the literal `pat` begins. */
  function FindFirst(pat: string, s: string): (r: Option<nat>)
    ensures r.Some? ==> OccursAt(s, pat, r.value)
    ensures r.Some? ==> forall j :: j < r.value ==> !OccursAt(s, pat, j)
    ensures r.None? <==> !Occurs(s, pat)
  {
    FindFrom(pat, s, 0)
  }

  /** Python's `pat in s`. */
  function Contains(s: string, pat: string): (b: bool)
    ensures b <==> Occurs(s, pat)
  {
    FindFirst(pat, s).Some?
  }

  /** An occurrence with none before it is the one `FindFirst` returns. */
  lemma FindFirstIs(pat: string, s: string, i: int)
    requires OccursAt(s, pat, i)
    requires forall j :: j < i ==> !OccursAt(s, pat, j)
    ensures FindFirst(pat, s) == Some(i)
  {
  }

  /** Occurrences in `x + y` that start inside `y` are the occurrences in `y`. */
  lemma OccursShift(x: string, y: string, pat: string, j: int)
    requires 0 <= j
    ensures OccursAt(x + y, pat, |x| + j) <==> OccursAt(y, pat, j)
  {
    if j + |pat| <= |y| {
      assert (x + y)[|x| + j..|x| + j + |pat|] == y[j..j + |pat|];
    }
  }

  /** An occurrence in `x + y` that ends inside `x` is an occurrence in `x`. */
  lemma OccursPrefix(x: string, y: string, pat: string, i: int)
    ensures OccursAt(x + y, pat, i) && i + |pat| <= |x| ==> OccursAt(x, pat, i)
  {
    if 0 <= i && i + |pat| <= |x| {
      assert (x + y)[i..i + |pat|] == x[i..i + |pat|];
    }
  }

  /** When `x` holds no occurrence of `pat` and ends in a character `pat` does
      not use, every occurrence in `x + y` lies inside `y`, so the first one is
      the first one of `y`, shifted by `|x|`. */
  lemma FindFirstSkip(x: string, y: string, pat: string)
    requires |pat| > 0
    requires !Occurs(x, pat)
    requires |x| > 0 && x[|x| - 1] !in pat
    ensures FindFirst(pat, x + y) ==
              match FindFirst(pat, y) case None => None case Some(j) => Some(|x| + j)
  {
    forall i | i < |x|
      ensures !OccursAt(x + y, pat, i)
    {
      OccursPrefix(x, y, pat, i);
      OccursChar(x + y, pat, i, |x| - 1 - i);
    }
    SkipPrefix(x, y, pat);
  }

  /** With no occurrence starting inside `x`, the first occurrence in `x + y` is
      the first one of `y`, shifted by `|x|`. */
  lemma SkipPrefix(x: string, y: string, pat: string)
    requires forall i :: i < |x| ==> !OccursAt(x + y, pat, i)
    ensures FindFirst(pat, x + y) ==
              match FindFirst(pat, y) case None => None case Some(j) => Some(|x| + j)
  {
    match FindFirst(pat, y)
    case None =>
      assert !Occurs(x + y, pat) by {
        NoneAfter(x, y, pat, |x| + |y| + 1);
      }
    case Some(j) =>
      OccursShift(x, y, pat, j);
      NoneAfter(x, y, pat, |x| + j);
      FindFirstIs(pat, x + y, |x| + j);
  }

  /** Occurrences in `x + y` that start inside `y` before `|x| + j` are ones
      of `y` before `j`. */
  lemma NoneAfter(x: string, y: string, pat: string, end: int)
    requires forall j :: j < end - |x| ==> !OccursAt(y, pat, j)
    ensures forall i :: |x| <= i < end ==> !OccursAt(x + y, pat, i)
  {
    forall i | |x| <= i < end ensures !OccursAt(x + y, pat, i) {
      OccursShift(x, y, pat, i - |x|);
    }
  }

  /** `pat` does not start inside `x` in `x + y` when the first character of
      `pat` appears in `x` only at its start, where the second characters of
      `x` and `pat` differ or the first ones already do. */
  lemma NoEarlyStart(x: string, y: string, pat: string)
    requires |x| >= 2 && |pat| >= 2
    requires x[0] != pat[0] || x[1] != pat[1]
    requires forall k :: 1 <= k < |x| ==> x[k] != pat[0]
    ensures forall i :: i < |x| ==> !OccursAt(x + y, pat, i)
  {
    forall i | i < |x| ensures !OccursAt(x + y, pat, i) {
      OccursChar(x + y, pat, i, 0);
      OccursChar(x + y, pat, i, 1);
    }
  }

  /** Text that uses none of the characters of `pat` does not contain it. */
  lemma NoSharedChars(s: string, pat: string)
    requires |pat| > 0
    requires forall k :: 0 <= k < |s| ==> s[k] !in pat
    ensures !Occurs(s, pat)
  {
    forall i ensures !OccursAt(s, pat, i) {
      OccursChar(s, pat, i, 0);
    }
  }

  /** A pattern holding a character that `s` lacks does not occur in `s`. */
  lemma CharAbsent(s: string, pat: string, k: int)
    requires 0 <= k < |pat| && pat[k] !in s
    ensures !Occurs(s, pat)
  {
    forall i ensures !OccursAt(s, pat, i) {
      OccursChar(s, pat, i, k);
    }
  }

  /** An occurrence in `x + y` lies in `x`, in `y`, or covers both `x`'s last
      character and `y`'s first. */
  lemma OccursConcat(x: string, y: string, pat: string)
    requires |pat| > 0
    requires Occurs(x + y, pat)
    requires |x| > 0 && |y| > 0 ==> x[|x| - 1] !in pat || y[0] !in pat
    ensures Occurs(x, pat) || Occurs(y, pat)
  {
    var i :| OccursAt(x + y, pat, i);
    OccursPrefix(x, y, pat, i);
    if i >= |x| {
      OccursShift(x, y, pat, i - |x|);
    } else if i + |pat| > |x| {
      OccursChar(x + y, pat, i, |x| - 1 - i);
      OccursChar(x + y, pat, i, |x| - i);
      assert false;
    }
  }

  /** A pattern occurs in none of three pieces, and cannot straddle their
      joins, so it does not occur in their concatenation. */
  lemma NotOccurs3(x: string, y: string, z: string, pat: string)
    requires |pat| > 0
    requires !Occurs(x, pat) && !Occurs(y, pat) && !Occurs(z, pat)
    requires |x| > 0 && x[|x| - 1] !in pat
    requires |z| > 0 && z[0] !in pat
    ensures !Occurs(x + y + z, pat)
  {
    if Occurs(x + y + z, pat) {
      OccursConcat(x + y, z, pat);
      OccursConcat(x, y, pat);
    }
  }

  // ---------------------------------------------------------------------------
  // Scanning, lines, splitting

  /** The first index at or after `from` holding one of `stops`, or `|s|`. */
  function IndexOfAny(s: string, from: nat, stops: set<char>): (k: nat)
    requires from <= |s|
    ensures from <= k <= |s|
    ensures forall i {:trigger s[i] in stops} :: from <= i < k ==> s[i] !in stops
    ensures k < |s| ==> s[k] in stops
    decreases |s| - from
  {
    if from == |s| || s[from] in stops then from else IndexOfAny(s, from + 1, stops)
  }

  /** The text from `from` up to, not including, the next line break: what
      `(.*?)$` captures in multi-line mode. */
  function RestOfLine(s: string, from: nat): (r: string)
    requires from <= |s|
    ensures '\n' !in r
    ensures from + |r| <= |s| && r == s[from..from + |r|]
    ensures forall i :: from <= i < from + |r| ==> s[i] != '\n'
    ensures from + |r| == |s| || s[from + |r|] == '\n'
  {
    s[from..IndexOfAny(s, from, {'\n'})]
  }

  /** The line that starts at `from` is fixed by where the next line break is. */
  lemma RestOfLineIs(s: string, from: nat, n: nat)
    requires from + n <= |s|
    requires forall i :: from <= i < from + n ==> s[i] != '\n'
    requires from + n == |s| || s[from + n] == '\n'
    ensures RestOfLine(s, from) == s[from..from + n]
  {
  }

  /** The line after `x` in `x + v + "\n" + y` is `v`. */
  lemma RestOfLineAt(x: string, v: string, y: string)
    requires '\n' !in v
    ensures RestOfLine(x + v + "\n" + y, |x|) == v
  {
    var s := x + v + "\n" + y;
    assert forall i :: 0 <= i < |v| ==> s[|x| + i] == v[i];
    assert s[|x| + |v|] == '\n';
    RestOfLineIs(s, |x|, |v|);
    assert s[|x|..|x| + |v|] == v;
  }

  /** Lines are found the same way after a prefix. */
  lemma RestOfLineShift(x: string, y: string, from: nat)
    requires from <= |y|
    ensures RestOfLine(x + y, |x| + from) == RestOfLine(y, from)
  {
    var r := RestOfLine(y, from);
    var s := x + y;
    assert forall i :: 0 <= i < |y| ==> s[|x| + i] == y[i];
    RestOfLineIs(s, |x| + from, |r|);
    assert s[|x| + from..|x| + from + |r|] == y[from..from + |r|];
  }

  /** The first part of `x + [d] + y` split at `d` is `x` when `x` holds no `d`. */
  lemma SplitHead(x: string, d: char, y: string)
    requires d !in x
    ensures Split(x + [d] + y, d)[0] == x
  {
    var s := x + [d] + y;
    var k := IndexOfAny(s, 0, {d});
    assert forall i :: 0 <= i < |x| ==> s[i] == x[i];
    assert s[|x|] == d;
    assert k == |x|;
    assert s[..k] == x;
  }

  /** Python's `d.join(parts)`: the parts with `d` between each two of them. */
  function Join(parts: seq<string>, d: char): string
  {
    if |parts| == 0 then ""
    else if |parts| == 1 then parts[0]
    else parts[0] + [d] + Join(parts[1..], d)
  }

  /** Python's `s.split(d)` for a one-character separator. */
  function Split(s: string, d: char): (parts: seq<string>)
    ensures |parts| >= 1
    ensures forall k :: 0 <= k < |parts| ==> d !in parts[k]
    ensures Join(parts, d) == s
    decreases |s|
  {
    var k := IndexOfAny(s, 0, {d});
    if k == |s| then [s] else [s[..k]] + Split(s[k + 1..], d)
  }

  /** Splitting undoes joining whenever no part holds the separator. */
  lemma {:induction false} SplitJoin(parts: seq<string>, d: char)
    requires |parts| >= 1
    requires forall k :: 0 <= k < |parts| ==> d !in parts[k]
    ensures Split(Join(parts, d), d) == parts
    decreases |parts|
  {
    var s := Join(parts, d);
    var k := IndexOfAny(s, 0, {d});
    if |parts| == 1 {
      assert s == parts[0];
      assert k == |s|;
    } else {
      var p := parts[0];
      assert s == p + [d] + Join(parts[1..], d);
      assert s[|p|] == d;
      assert k == |p|;
      assert s[..k] == p;
      assert s[k + 1..] == Join(parts[1..], d);
      SplitJoin(parts[1..], d);
      assert parts == [p] + parts[1..];
    }
  }

  /** A pattern without the separator occurs in a joined text only inside a part. */
  lemma {:induction false} JoinFree(parts: seq<string>, d: char, pat: string)
    requires |pat| > 0 && d !in pat
    requires forall k :: 0 <= k < |parts| ==> !Occurs(parts[k], pat)
    ensures !Occurs(Join(parts, d), pat)
    decreases |parts|
  {
    if |parts| > 1 {
      var rest := Join(parts[1..], d);
      JoinFree(parts[1..], d, pat);
      NoSharedChars([d], pat);
      if Occurs(parts[0] + [d] + rest, pat) {
        OccursConcat(parts[0] + [d], rest, pat);
        OccursConcat(parts[0], [d], pat);
      }
    }
  }

  /** A character other than the separator is in a joined text only if it is in a part. */
  lemma {:induction false} JoinExcludes(parts: seq<string>, d: char, c: char)
    requires c != d
    requires forall k :: 0 <= k < |parts| ==> c !in parts[k]
    ensures c !in Join(parts, d)
    decreases |parts|
  {
    if |parts| > 1 {
      JoinExcludes(parts[1..], d, c);
    }
  }

  /** Python's slice `s[1:-1]`: `s` without its first and last characters, and
      empty when `s` has fewer than two. */
  function Inner(s: string): (r: string)
    ensures |s| >= 2 ==> |r| == |s| - 2 && forall i :: 0 <= i < |r| ==> r[i] == s[i + 1]
    ensures |s| < 2 ==> r == []
  {
    if |s| >= 2 then s[1..|s| - 1] else []
  }

  /** Python's `s.replace(a, b)` for one-character `a` and `b`. */
  function Replace(s: string, a: char, b: char): (r: string)
    ensures |r| == |s|
    ensures forall i :: 0 <= i < |s| ==> r[i] == if s[i] == a then b else s[i]
  {
    if |s| == 0 then [] else Replace(s[..|s| - 1], a, b) + [if s[|s| - 1] == a then b else s[|s| - 1]]
  }

  /** Replacing `a` by a character `b` that `s` does not contain is undone by
      replacing `b` back by `a`. */
  lemma ReplaceInverse(s: string, a: char, b: char)
    requires b !in s
    ensures Replace(Replace(s, a, b), b, a) == s
  {
    var r := Replace(Replace(s, a, b), b, a);
    forall i | 0 <= i < |s| ensures r[i] == s[i] {
      assert s[i] != b;
    }
  }

  // ---------------------------------------------------------------------------
  // Integers

  predicate IsDigit(c: char) {
    '0' <= c <= '9'
  }

  /** The digit string Python's `int()` accepts after its sign: a digit, then
      digits each optionally preceded by one underscore. */
  predicate IsDigitString(s: string)
    decreases |s|
  {
    && |s| > 0 && IsDigit(s[0])
    && (|s| == 1 || IsDigitString(s[1..]) || (s[1] == '_' && IsDigitString(s[2..])))
  }

  lemma {:induction false} AllDigitsIsDigitString(s: string)
    requires |s| > 0
    requires forall i :: 0 <= i < |s| ==> IsDigit(s[i])
    ensures IsDigitString(s)
    decreases |s|
  {
    if |s| > 1 {
      AllDigitsIsDigitString(s[1..]);
    }
  }

  /** The decimal value of a digit string, underscores ignored. */
  function DigitsValue(s: string): int
  {
    if |s| == 0 then 0
    else if s[|s| - 1] == '_' then DigitsValue(s[..|s| - 1])
    else 10 * DigitsValue(s[..|s| - 1]) + (s[|s| - 1] as int - '0' as int)
  }

  /** The four ASCII information separators U+001C to U+001F: whitespace to
      `isspace()` and `strip()`, but not to `int()`, which skips only the
      other ASCII whitespace and the non-ASCII kind. */
  predicate IsInfoSeparator(c: char) {
    '\U{1C}' <= c <= '\U{1F}'
  }

  predicate SeparatorFree(s: string) {
    forall i :: 0 <= i < |s| ==> !IsInfoSeparator(s[i])
  }

  /** Python's `int(s)` on a string: surrounding whitespace is ignored, then an
      optional sign and a digit string; anything else raises `ValueError`,
      which is `None` here. An information separator is never skipped, so
      anywhere in `s` it makes the text invalid; without one, the whitespace
      `int()` skips is exactly what `strip()` removes. */
  function PyInt(s: string): (r: Option<int>)
    ensures r.Some? ==> |Strip(s)| > 0
    ensures r.Some? ==> SeparatorFree(s)
  {
    if !SeparatorFree(s) then None
    else
      var t := Strip(s);
      if |t| > 0 && (t[0] == '+' || t[0] == '-') then
        var digits := t[1..];
        if IsDigitString(digits) then
          Some(if t[0] == '-' then -DigitsValue(digits) else DigitsValue(digits))
        else None
      else if IsDigitString(t) then Some(DigitsValue(t))
      else None
  }

  /** `strip()` removes a leading information separator, but `int()` rejects
      it: `int("\x1c5")` raises although `"\x1c5".strip()` is `"5"`. */
  lemma InfoSeparatorNotSkipped()
    ensures Strip("\U{1C}5") == "5"
    ensures PyInt("\U{1C}5") == None
    ensures PyInt("5") == Some(5)
  {
    var s := "\U{1C}5";
    assert !SeparatorFree(s) by {
      assert IsInfoSeparator(s[0]);
    }
    StripPadded("\U{1C}", "5", "");
    assert s == "\U{1C}" + "5" + "";
    assert IsStripped("5");
    assert IsDigitString("5");
  }

  function DigitChar(d: nat): char
    requires d < 10
  {
    ('0' as int + d) as char
  }

  /** Python's `str(n)` for a non-negative integer. */
  function NatToString(n: nat): (r: string)
    ensures |r| > 0
    ensures forall i :: 0 <= i < |r| ==> IsDigit(r[i])
    ensures r[0] == '0' <==> n == 0
    ensures r[0] == '0' ==> |r| == 1
  {
    if n < 10 then [DigitChar(n)] else NatToString(n / 10) + [DigitChar(n % 10)]
  }

  /** Python's `str(n)` for any integer. */
  function IntToString(n: int): (r: string)
    ensures |r| > 0 && IsDigit(r[|r| - 1])
    ensures forall i :: 0 <= i < |r| ==> IsDigit(r[i]) || (i == 0 && r[i] == '-')
    ensures r[0] == '-' <==> n < 0
    ensures var d := if n < 0 then r[1..] else r;
              |d| > 0 && (d[0] == '0' <==> n == 0) && (|d| > 1 ==> d[0] != '0')
  {
    if n < 0 then "-" + NatToString(-n) else NatToString(n)
  }

  lemma {:induction false} NatToStringValue(n: nat)
    ensures DigitsValue(NatToString(n)) == n
  {
    var s := NatToString(n);
    if n < 10 {
      assert s[..|s| - 1] == [];
    } else {
      assert s[..|s| - 1] == NatToString(n / 10);
      NatToStringValue(n / 10);
    }
  }

  /** `int(str(n)) == n`. */
  lemma PyIntRoundTrip(n: int)
    ensures PyInt(IntToString(n)) == Some(n)
  {
    var m: nat := if n < 0 then -n else n;
    var t := NatToString(m);
    AllDigitsIsDigitString(t);
    NatToStringValue(m);
    if n < 0 {
      PyIntNegative(t);
    } else {
      PyIntPositive(t);
    }
  }

  /** A digit string is read as its value. */
  lemma PyIntPositive(t: string)
    requires IsDigitString(t) && IsDigit(t[|t| - 1])
    requires forall i :: 0 <= i < |t| ==> IsDigit(t[i])
    ensures PyInt(t) == Some(DigitsValue(t))
  {
    assert SeparatorFree(t) by {
      forall i | 0 <= i < |t| ensures !IsInfoSeparator(t[i]) {
        assert IsDigit(t[i]);
      }
    }
    assert IsDigit(t[0]);
    assert IsStripped(t);
    assert Strip(t) == t;
    assert t[0] != '+' && t[0] != '-';
  }

  /** A digit string after a minus sign is read as its negated value. */
  lemma PyIntNegative(t: string)
    requires IsDigitString(t) && IsDigit(t[|t| - 1])
    requires forall i :: 0 <= i < |t| ==> IsDigit(t[i])
    ensures PyInt("-" + t) == Some(-DigitsValue(t))
  {
    NegatedText(t);
    PyIntSigned("-" + t, t);
  }

  /** A minus sign before a non-empty digit string gives a stripped text
      without information separators. */
  lemma NegatedText(t: string)
    requires |t| > 0 && IsDigit(t[|t| - 1])
    requires forall i :: 0 <= i < |t| ==> IsDigit(t[i])
    ensures var u := "-" + t; |u| > 0 && u[0] == '-' && u[1..] == t && IsStripped(u) && SeparatorFree(u)
  {
    var u := "-" + t;
    assert forall i :: 1 <= i < |u| ==> u[i] == t[i - 1];
    assert u[1..] == t;
  }

  lemma PyIntSigned(u: string, t: string)
    requires |u| > 0 && u[0] == '-' && u[1..] == t && IsStripped(u) && IsDigitString(t) && SeparatorFree(u)
    ensures PyInt(u) == Some(-DigitsValue(t))
  {
  }
}
