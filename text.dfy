/**
  The string operations of Python's `str` and JavaScript's `String` that the
  backend and the front end rely on: whitespace trimming, ASCII lower-casing,
  substring search (`in`, `includes`, `rfind`), `join`, decimal formatting,
  `int()` and `split()`.
 */
module Text {
  import opened Results

  /** The two string libraries, which disagree on which characters are whitespace. */
  datatype Lang = Python | JavaScript

  /** Python's `str.isspace` on one code point. */
  predicate IsPySpace(c: char) {
    var n := c as int;
    (9 <= n <= 13) || (28 <= n <= 32) || n == 0x85 || n == 0xA0 || n == 0x1680
    || (0x2000 <= n <= 0x200A) || n == 0x2028 || n == 0x2029 || n == 0x202F
    || n == 0x205F || n == 0x3000
  }

  /** The WhiteSpace and LineTerminator code points that JavaScript's `trim` removes. */
  predicate IsJsSpace(c: char) {
    var n := c as int;
    (9 <= n <= 13) || n == 32 || n == 0xA0 || n == 0x1680 || (0x2000 <= n <= 0x200A)
    || n == 0x2028 || n == 0x2029 || n == 0x202F || n == 0x205F || n == 0x3000
    || n == 0xFEFF
  }

  predicate IsSpace(lang: Lang, c: char) {
    match lang
    case Python => IsPySpace(c)
    case JavaScript => IsJsSpace(c)
  }

  /** Every character is whitespace (the empty string included). */
  predicate IsBlank(lang: Lang, s: string) {
    forall i :: 0 <= i < |s| ==> IsSpace(lang, s[i])
  }

  /** The index of the first non-whitespace character of `s` at or after `i`, or `|s|`. */
  function SkipSpaces(lang: Lang, s: string, i: nat): (j: nat)
    requires i <= |s|
    ensures i <= j <= |s| && (j < |s| ==> !IsSpace(lang, s[j]))
    decreases |s| - i
  {
    if i < |s| && IsSpace(lang, s[i]) then SkipSpaces(lang, s, i + 1) else i
  }

  /** Only whitespace is skipped. */
  lemma {:induction false} SkipSpacesSkipsSpace(lang: Lang, s: string, i: nat)
    requires i <= |s|
    ensures forall k :: i <= k < SkipSpaces(lang, s, i) ==> IsSpace(lang, s[k])
    decreases |s| - i
  {
    if i < |s| && IsSpace(lang, s[i]) {
      SkipSpacesSkipsSpace(lang, s, i + 1);
    }
  }

  /** Going back from `j` but not below `lo`: one past the last non-whitespace character met, or `lo`. */
  function BackSpaces(lang: Lang, s: string, lo: nat, j: nat): (k: nat)
    requires lo <= j <= |s|
    ensures lo <= k <= j && (k > lo ==> !IsSpace(lang, s[k - 1]))
    decreases j
  {
    if j > lo && IsSpace(lang, s[j - 1]) then BackSpaces(lang, s, lo, j - 1) else j
  }

  /** Only whitespace is skipped. */
  lemma {:induction false} BackSpacesSkipsSpace(lang: Lang, s: string, lo: nat, j: nat)
    requires lo <= j <= |s|
    ensures forall k :: BackSpaces(lang, s, lo, j) <= k < j ==> IsSpace(lang, s[k])
    decreases j
  {
    if j > lo && IsSpace(lang, s[j - 1]) {
      BackSpacesSkipsSpace(lang, s, lo, j - 1);
    }
  }

  /** Where the infix that `Strip` keeps starts and ends. */
  function StripBounds(lang: Lang, s: string): (ab: (nat, nat))
    ensures ab.0 <= ab.1 <= |s|
  {
    var a := SkipSpaces(lang, s, 0);
    (a, BackSpaces(lang, s, a, |s|))
  }

  /**
    Python's `str.strip()` (lang Python) and JavaScript's `String.prototype.trim()`
    (lang JavaScript): the longest infix that neither starts nor ends with whitespace,
    with only whitespace cut from either side.
   */
  function Strip(lang: Lang, s: string): (r: string)
    ensures |r| <= |s|
    ensures r == [] || (!IsSpace(lang, r[0]) && !IsSpace(lang, r[|r| - 1]))
  {
    var ab := StripBounds(lang, s);
    s[ab.0..ab.1]
  }

  /** `Strip` keeps an infix of `s` with only whitespace before and after it. */
  lemma StripIsInfix(lang: Lang, s: string)
    ensures var (a, b) := StripBounds(lang, s);
      && Strip(lang, s) == s[a..b]
      && (forall k :: 0 <= k < a ==> IsSpace(lang, s[k]))
      && (forall k :: b <= k < |s| ==> IsSpace(lang, s[k]))
  {
    var a := SkipSpaces(lang, s, 0);
    SkipSpacesSkipsSpace(lang, s, 0);
    BackSpacesSkipsSpace(lang, s, a, |s|);
  }

  /** Stripping leaves nothing exactly when the string is all whitespace. */
  lemma StripEmptyIffBlank(lang: Lang, s: string)
    ensures Strip(lang, s) == [] <==> IsBlank(lang, s)
  {
    StripIsInfix(lang, s);
  }

  /** ASCII-only lower-casing of one character. */
  function LowerChar(c: char): char {
    if 'A' <= c <= 'Z' then (c as int + 32) as char else c
  }

  /** `toLowerCase()` restricted to ASCII letters; every other character is kept. */
  function ToLower(s: string): (r: string)
    ensures |r| == |s|
    ensures forall i :: 0 <= i < |s| ==> r[i] == LowerChar(s[i])
  {
    seq(|s|, i requires 0 <= i < |s| => LowerChar(s[i]))
  }

  /** `p` occurs in `s` starting at index `i`. */
  predicate OccursAt(s: string, p: string, i: int) {
    0 <= i && i + |p| <= |s| && s[i..i + |p|] == p
  }

  /** An occurrence in `s` is one in `a + s + b`, shifted by `|a|`. */
  lemma OccursInConcat(a: string, s: string, b: string, p: string, i: int)
    requires OccursAt(s, p, i)
    ensures OccursAt(a + s + b, p, |a| + i)
  {
    assert (a + s + b)[|a| + i..|a| + i + |p|] == s[i..i + |p|];
  }

  /** An occurrence in `c`, where `c` itself occurs in `s`, is an occurrence in `s`. */
  lemma OccursWithin(s: string, c: string, j: int, p: string, i: int)
    requires OccursAt(s, c, j) && OccursAt(c, p, i)
    ensures OccursAt(s, p, j + i)
  {
    var x, y := s[j + i..j + i + |p|], s[j..j + |c|];
    assert forall k :: 0 <= k < |p| ==> x[k] == y[i + k] == c[i + k];
    assert x == c[i..i + |p|];
  }

  /** Both parts of `x + y`, at their offsets. */
  lemma PartsOfTwo(x: string, y: string)
    ensures OccursAt(x + y, x, 0) && OccursAt(x + y, y, |x|)
  {
    assert (x + y)[..|x|] == x;
    assert (x + y)[|x|..|x| + |y|] == y;
  }

  /** Each part of `a + b + c + d` sits right after the parts before it. */
  lemma PartsOfFour(a: string, b: string, c: string, d: string)
    ensures var s := a + b + c + d;
      && |s| == |a| + |b| + |c| + |d|
      && OccursAt(s, a, 0) && OccursAt(s, b, |a|) && OccursAt(s, c, |a| + |b|) && OccursAt(s, d, |a| + |b| + |c|)
  {
    var ab := a + b;
    var abc := ab + c;
    var s := abc + d;
    PartsOfTwo(a, b);
    PartsOfTwo(ab, c);
    PartsOfTwo(abc, d);
    OccursWithin(s, abc, 0, ab, 0);
    OccursWithin(s, ab, 0, a, 0);
    OccursWithin(s, ab, 0, b, |a|);
    OccursWithin(s, abc, 0, c, |ab|);
  }

  /** And so does each part of `a + b + c + d + e`. */
  lemma PartsOfFive(a: string, b: string, c: string, d: string, e: string)
    ensures var s := a + b + c + d + e;
      && |s| == |a| + |b| + |c| + |d| + |e|
      && OccursAt(s, a, 0) && OccursAt(s, b, |a|) && OccursAt(s, c, |a| + |b|)
      && OccursAt(s, d, |a| + |b| + |c|) && OccursAt(s, e, |a| + |b| + |c| + |d|)
  {
    var x := a + b + c + d;
    var s := x + e;
    PartsOfFour(a, b, c, d);
    PartsOfTwo(x, e);
    OccursWithin(s, x, 0, a, 0);
    OccursWithin(s, x, 0, b, |a|);
    OccursWithin(s, x, 0, c, |a| + |b|);
    OccursWithin(s, x, 0, d, |a| + |b| + |c|);
  }

  /** Python's `s.endswith(suffix)`. */
  predicate EndsWith(s: string, suffix: string) {
    |suffix| <= |s| && s[|s| - |suffix|..] == suffix
  }

  lemma EndsWithAppend(a: string, t: string)
    ensures EndsWith(a + t, t)
  {
    assert (a + t)[|a|..] == t;
  }

  /** Python's `p in s` and JavaScript's `s.includes(p)`. */
  function Contains(s: string, p: string): (b: bool)
    ensures b <==> exists i :: OccursAt(s, p, i)
    decreases |s|
  {
    if |p| > |s| then
      assert forall i :: !OccursAt(s, p, i);
      false
    else if s[..|p|] == p then
      assert OccursAt(s, p, 0);
      true
    else
      var b := Contains(s[1..], p);
      assert forall i :: 0 <= i ==> (OccursAt(s[1..], p, i) <==> OccursAt(s, p, i + 1));
      assert !OccursAt(s, p, 0);
      assert b ==> exists i :: OccursAt(s, p, i) by {
        if b {
          var i :| OccursAt(s[1..], p, i);
          assert OccursAt(s, p, i + 1);
        }
      }
      assert (exists i :: OccursAt(s, p, i)) ==> b by {
        if exists i :: OccursAt(s, p, i) {
          var i :| OccursAt(s, p, i);
          assert i >= 1 && OccursAt(s[1..], p, i - 1);
        }
      }
      b
  }

  /** The empty pattern occurs in every string. */
  lemma ContainsEmpty(s: string)
    ensures Contains(s, "")
  {
    assert OccursAt(s, "", 0);
  }

  /** The highest index `j <= i` at which `p` occurs in `s`, or -1. */
  function RFindFrom(s: string, p: string, i: int): (r: int)
    requires i + |p| <= |s|
    ensures r == -1 || 0 <= r <= i
    decreases i + 1
  {
    if i < 0 then -1
    else if s[i..i + |p|] == p then i
    else RFindFrom(s, p, i - 1)
  }

  lemma {:induction false} RFindFromIsLast(s: string, p: string, i: int)
    requires i + |p| <= |s|
    ensures var r := RFindFrom(s, p, i);
      && (r == -1 ==> forall j :: j <= i ==> !OccursAt(s, p, j))
      && (r != -1 ==> OccursAt(s, p, r) && forall j :: r < j <= i ==> !OccursAt(s, p, j))
    decreases i + 1
  {
    if i >= 0 && s[i..i + |p|] != p {
      RFindFromIsLast(s, p, i - 1);
    }
  }

  /** Python's `s.rfind(p)`: the highest index at which `p` occurs in `s`, or -1. */
  function RFind(s: string, p: string): (r: int)
    ensures r == -1 || (0 <= r && r + |p| <= |s|)
  {
    if |p| > |s| then -1 else RFindFrom(s, p, |s| - |p|)
  }

  /** `RFind` returns -1 exactly when `p` does not occur, and otherwise its last occurrence. */
  lemma RFindIsLast(s: string, p: string)
    ensures var r := RFind(s, p);
      && (r == -1 <==> forall j :: !OccursAt(s, p, j))
      && (r != -1 ==> OccursAt(s, p, r) && forall j :: r < j ==> !OccursAt(s, p, j))
  {
    assert forall j :: j > |s| - |p| ==> !OccursAt(s, p, j);
    if |p| <= |s| {
      RFindFromIsLast(s, p, |s| - |p|);
    }
  }

  /** Python's `sep.join(xs)` and JavaScript's `xs.join(sep)`. */
  function Join(sep: string, xs: seq<string>): string
    decreases |xs|
  {
    if xs == [] then ""
    else if |xs| == 1 then xs[0]
    else xs[0] + sep + Join(sep, xs[1..])
  }

  /** Where the `i`-th element starts inside `Join(sep, xs)`. */
  function JoinOffset(sep: string, xs: seq<string>, i: nat): nat
    requires i <= |xs|
    decreases i
  {
    if i == 0 then 0 else JoinOffset(sep, xs, i - 1) + |xs[i - 1]| + |sep|
  }

  /**
    Every element of a join occurs in it, in order: element `i` sits at `JoinOffset(sep, xs, i)`,
    and when it is not the last one the separator follows it.
   */
  lemma {:induction false} JoinPlaces(sep: string, xs: seq<string>, i: nat)
    requires i < |xs|
    ensures OccursAt(Join(sep, xs), xs[i], JoinOffset(sep, xs, i))
    ensures i + 1 < |xs| ==> OccursAt(Join(sep, xs), sep, JoinOffset(sep, xs, i) + |xs[i]|)
    decreases i
  {
    if |xs| == 1 {
    } else if i == 0 {
      assert Join(sep, xs) == xs[0] + sep + Join(sep, xs[1..]);
    } else {
      JoinPlaces(sep, xs[1..], i - 1);
      JoinOffsetShift(sep, xs, i);
      var j := Join(sep, xs[1..]);
      var k := |xs[0]| + |sep|;
      assert Join(sep, xs) == xs[0] + sep + j;
      assert Join(sep, xs)[k..] == j;
    }
  }

  lemma {:induction false} JoinOffsetShift(sep: string, xs: seq<string>, i: nat)
    requires 1 <= i <= |xs|
    ensures JoinOffset(sep, xs, i) == |xs[0]| + |sep| + JoinOffset(sep, xs[1..], i - 1)
    decreases i
  {
    if i > 1 {
      JoinOffsetShift(sep, xs, i - 1);
    }
  }

  predicate IsDigit(c: char) {
    '0' <= c <= '9'
  }

  function DigitChar(d: nat): (c: char)
    requires d < 10
    ensures IsDigit(c) && c as int - '0' as int == d
  {
    ('0' as int + d) as char
  }

  /** Value of an ASCII digit; 0 for anything else. */
  function DigitValue(c: char): nat {
    if IsDigit(c) then c as int - '0' as int else 0
  }

  /**
    Decimal rendering of a natural number, as Python's `str(n)`, an f-string `{n}` and
    JavaScript's `n.toString()` produce it: digits only, no leading zero unless it is "0".
   */
  function NatToString(n: nat): (s: string)
    ensures |s| > 0 && forall i :: 0 <= i < |s| ==> IsDigit(s[i])
    ensures |s| > 1 ==> s[0] != '0'
    decreases n
  {
    if n < 10 then [DigitChar(n)] else NatToString(n / 10) + [DigitChar(n % 10)]
  }

  /** The number a run of digits denotes, with any `_` separators ignored. */
  function DigitsValue(s: string): nat
    decreases |s|
  {
    if s == [] then 0
    else if s[|s| - 1] == '_' then DigitsValue(s[..|s| - 1])
    else DigitsValue(s[..|s| - 1]) * 10 + DigitValue(s[|s| - 1])
  }

  /** Reading back a decimal rendering gives the number. */
  lemma {:induction false} DigitsValueOfNatToString(n: nat)
    ensures DigitsValue(NatToString(n)) == n
    decreases n
  {
    if n >= 10 {
      DigitsValueOfNatToString(n / 10);
      var s := NatToString(n);
      assert s[..|s| - 1] == NatToString(n / 10);
    }
  }

  /** Distinct numbers have distinct renderings. */
  lemma NatToStringInjective(m: nat, n: nat)
    requires m != n
    ensures NatToString(m) != NatToString(n)
  {
    DigitsValueOfNatToString(m);
    DigitsValueOfNatToString(n);
  }

  /**
    A decimal numeral followed by text that does not start with a digit can be read back:
    the number and the rest are determined by the whole.
   */
  lemma NumeralPrefixInjective(m: nat, n: nat, x: string, y: string)
    requires NatToString(m) + x == NatToString(n) + y
    requires x == [] || !IsDigit(x[0])
    requires y == [] || !IsDigit(y[0])
    ensures m == n && x == y
  {
    var dm, dn := NatToString(m), NatToString(n);
    var s := dm + x;
    assert forall i :: 0 <= i < |dm| ==> IsDigit(s[i]);
    assert forall i :: 0 <= i < |dn| ==> IsDigit(s[i]) by {
      assert s == dn + y;
    }
    assert |dm| < |s| ==> !IsDigit(s[|dm|]);
    assert |dn| < |s| ==> !IsDigit(s[|dn|]) by {
      assert s == dn + y;
    }
    assert |dm| == |dn|;
    assert dm == s[..|dm|] == dn;
    assert x == s[|dm|..] == y;
    if m != n {
      NatToStringInjective(m, n);
    }
  }

  /** The unsigned numerals Python's `int()` accepts: ASCII digits, single `_` between two digits. */
  predicate IsPyNumeral(s: string) {
    && |s| > 0
    && IsDigit(s[0])
    && IsDigit(s[|s| - 1])
    && (forall i :: 0 <= i < |s| ==> IsDigit(s[i]) || s[i] == '_')
    && (forall i :: 0 <= i < |s| - 1 ==> s[i] == '_' ==> s[i + 1] != '_')
  }

  /**
    Python's `int(tok)` on a token without surrounding whitespace: an optional sign and an
    ASCII numeral, with the sign applied to its value; `None` where Python raises
    `ValueError` for a token of ASCII characters.
   */
  function ParsePyInt(tok: string): (r: Option<int>)
    ensures r.Some? <==> IsPyNumeral(tok) || (|tok| > 0 && tok[0] in "+-" && IsPyNumeral(tok[1..]))
    ensures r.Some? && IsPyNumeral(tok) ==> r.value == DigitsValue(tok)
    ensures r.Some? && |tok| > 0 && tok[0] == '-' ==> r.value == -(DigitsValue(tok[1..]) as int)
    ensures r.Some? && |tok| > 0 && tok[0] == '+' ==> r.value == DigitsValue(tok[1..])
  {
    if |tok| > 0 && tok[0] in "+-" then
      if IsPyNumeral(tok[1..]) then
        var v: int := DigitsValue(tok[1..]);
        Some(if tok[0] == '-' then -v else v)
      else None
    else if IsPyNumeral(tok) then Some(DigitsValue(tok))
    else None
  }

  /** `int(str(n)) == n`. */
  lemma ParsePyIntOfNatToString(n: nat)
    ensures ParsePyInt(NatToString(n)) == Some(n)
  {
    DigitsValueOfNatToString(n);
    var s := NatToString(n);
    assert IsDigit(s[0]);
    assert IsPyNumeral(s);
  }

  /** A non-empty string without whitespace: what Python's `split()` returns pieces of. */
  predicate IsWord(w: string) {
    w != [] && forall j :: 0 <= j < |w| ==> !IsPySpace(w[j])
  }

  /** Length of the maximal whitespace-free prefix. */
  function WordLength(s: string): (k: nat)
    ensures k <= |s|
    ensures forall i :: 0 <= i < k ==> !IsPySpace(s[i])
    ensures k == |s| || IsPySpace(s[k])
    decreases |s|
  {
    if s == [] || IsPySpace(s[0]) then 0 else 1 + WordLength(s[1..])
  }

  /** Python's `s.split()` with no separator: the maximal whitespace-free runs, in order. */
  function Words(s: string): (ws: seq<string>)
    ensures forall i :: 0 <= i < |ws| ==> IsWord(ws[i])
    decreases |s|
  {
    if s == [] then []
    else if IsPySpace(s[0]) then Words(s[1..])
    else
      var k := WordLength(s);
      [s[..k]] + Words(s[k..])
  }

  /** A string has no words exactly when it is all whitespace. */
  lemma {:induction false} WordsEmptyIffBlank(s: string)
    ensures Words(s) == [] <==> IsBlank(Python, s)
    decreases |s|
  {
    if s != [] && IsPySpace(s[0]) {
      WordsEmptyIffBlank(s[1..]);
      assert forall i :: 1 <= i < |s| ==> s[i] == s[1..][i - 1];
    } else if s != [] {
      assert !IsSpace(Python, s[0]);
    }
  }

  /** A single word splits into itself. */
  lemma WordsOfWord(w: string)
    requires IsWord(w)
    ensures Words(w) == [w]
  {
    WordLengthOfWord(w);
    assert !IsPySpace(w[0]);
    assert w[..|w|] == w && w[|w|..] == [];
  }

  /** A word followed by whitespace: the word is the first run. */
  lemma {:induction false} WordLengthBeforeSpace(w: string, rest: string)
    requires (forall j :: 0 <= j < |w| ==> !IsPySpace(w[j])) && rest != [] && IsPySpace(rest[0])
    ensures WordLength(w + rest) == |w|
    decreases |w|
  {
    if w == [] {
      assert w + rest == rest;
    } else {
      assert (w + rest)[1..] == w[1..] + rest;
      WordLengthBeforeSpace(w[1..], rest);
    }
  }

  /** A word followed by one space splits into that word. */
  lemma WordsOfWordThenSpace(w: string)
    requires IsWord(w)
    ensures Words(w + " ") == [w]
  {
    WordLengthBeforeSpace(w, " ");
    var s := w + " ";
    assert !IsPySpace(s[0]);
    assert s[..|w|] == w && s[|w|..] == " ";
    assert Words(" ") == Words(" "[1..]) == [];
  }

  lemma {:induction false} WordLengthOfWord(w: string)
    requires forall j :: 0 <= j < |w| ==> !IsPySpace(w[j])
    ensures WordLength(w) == |w|
    decreases |w|
  {
    if w != [] {
      WordLengthOfWord(w[1..]);
    }
  }

  /** Splitting at a whitespace character: the words of `a + b` are those of `a` followed by those of `b`. */
  lemma {:induction false} WordsAppend(a: string, b: string)
    requires a != [] && IsPySpace(a[|a| - 1])
    ensures Words(a + b) == Words(a) + Words(b)
    decreases |a|
  {
    if IsPySpace(a[0]) {
      if |a| > 1 {
        WordsAppend(a[1..], b);
      }
      WordsAppendSpace(a, b);
    } else {
      var k := WordLength(a);
      WordLengthPrefix(a, b);
      WordsAppend(a[k..], b);
      WordsAppendWord(a, b);
    }
  }

  /** The step of `WordsAppend` where `a` starts with whitespace. */
  lemma WordsAppendSpace(a: string, b: string)
    requires a != [] && IsPySpace(a[0]) && IsPySpace(a[|a| - 1])
    requires |a| > 1 ==> Words(a[1..] + b) == Words(a[1..]) + Words(b)
    ensures Words(a + b) == Words(a) + Words(b)
  {
    assert (a + b)[1..] == a[1..] + b;
    if |a| == 1 {
      assert Words(a) == Words(a[1..]) == [];
      assert a[1..] + b == b;
    }
  }

  /** The step of `WordsAppend` where `a` starts with a word. */
  lemma WordsAppendWord(a: string, b: string)
    requires a != [] && !IsPySpace(a[0]) && IsPySpace(a[|a| - 1])
    requires WordLength(a + b) == WordLength(a) < |a|
    requires var k := WordLength(a); Words(a[k..] + b) == Words(a[k..]) + Words(b)
    ensures Words(a + b) == Words(a) + Words(b)
  {
    var k := WordLength(a);
    var ab := a + b;
    var w, r := a[..k], a[k..];
    assert Words(ab) == [w] + Words(r + b) by {
      assert ab[0] == a[0];
      WordsOfWordStart(ab);
      SlicesOfAppend(a, b, k);
    }
    assert Words(a) == [w] + Words(r) by {
      WordsOfWordStart(a);
    }
    assert [w] + (Words(r) + Words(b)) == ([w] + Words(r)) + Words(b);
  }

  /** Cutting `a + b` inside `a`. */
  lemma SlicesOfAppend(a: string, b: string, k: nat)
    requires k <= |a|
    ensures (a + b)[..k] == a[..k] && (a + b)[k..] == a[k..] + b
  {
  }

  /** A string that starts with a word splits into that word and the words after it. */
  lemma WordsOfWordStart(s: string)
    requires s != [] && !IsPySpace(s[0])
    ensures Words(s) == [s[..WordLength(s)]] + Words(s[WordLength(s)..])
  {
  }

  lemma {:induction false} WordLengthPrefix(a: string, b: string)
    requires a != [] && IsPySpace(a[|a| - 1])
    ensures WordLength(a + b) == WordLength(a) < |a|
    decreases |a|
  {
    if !IsPySpace(a[0]) {
      assert |a| > 1;
      assert (a + b)[1..] == a[1..] + b;
      WordLengthPrefix(a[1..], b);
    }
  }
}
