/**
 * The pieces of Python's text handling that the generator relies on, written
 * as functions on strings: str() of a natural number, the zero-filled format
 * spec `{n:0{width}}`, str.join, str.replace, os.path.join and
 * os.path.basename (POSIX flavour), and string comparison.
 */
module Text {

  // ---------------------------------------------------------------------
  // Decimal digits
  // ---------------------------------------------------------------------

  predicate IsDigit(c: char) {
    '0' <= c <= '9'
  }

  predicate AllDigits(s: string) {
    forall i :: 0 <= i < |s| ==> IsDigit(s[i])
  }

  function DigitChar(d: nat): (c: char)
    requires d < 10
    ensures IsDigit(c)
  {
    (d + '0' as int) as char
  }

  function DigitValue(c: char): (d: nat)
    requires IsDigit(c)
    ensures d < 10
  {
    c as int - '0' as int
  }

  /** str(n) for a natural number: its decimal digits, most significant first. */
  function Decimal(n: nat): (s: string)
    ensures |s| >= 1 && AllDigits(s)
    ensures |s| > 1 ==> s[0] != '0'
    decreases n
  {
    if n < 10 then [DigitChar(n)] else Decimal(n / 10) + [DigitChar(n % 10)]
  }

  /** The number a string of decimal digits denotes, as int() reads it. */
  function Value(s: string): nat
    requires AllDigits(s)
  {
    if s == [] then 0 else 10 * Value(s[..|s| - 1]) + DigitValue(s[|s| - 1])
  }

  function Pow10(k: nat): (p: nat)
    ensures p >= 1
  {
    if k == 0 then 1 else 10 * Pow10(k - 1)
  }

  function Zeros(k: nat): (s: string)
    ensures |s| == k && AllDigits(s)
  {
    seq(k, _ => '0')
  }

  /**
   * f"{n:0{width}}" for a natural number n: str(n), left-filled with '0' up to
   * `width` characters; a number with more digits than `width` is not cut.
   */
  function ZeroPad(n: nat, width: nat): (s: string)
    ensures AllDigits(s)
    ensures |s| == if |Decimal(n)| < width then width else |Decimal(n)|
  {
    var d := Decimal(n);
    (if |d| < width then Zeros(width - |d|) else []) + d
  }

  /** Reading back str(n) gives n. */
  lemma {:induction false} ValueOfDecimal(n: nat)
    ensures Value(Decimal(n)) == n
    decreases n
  {
    if n >= 10 {
      var d := Decimal(n);
      assert d[..|d| - 1] == Decimal(n / 10);
      ValueOfDecimal(n / 10);
    }
  }

  lemma {:induction false} ValueLeadingZero(s: string)
    requires AllDigits(s)
    ensures Value("0" + s) == Value(s)
    decreases |s|
  {
    if s != [] {
      assert ("0" + s)[..|s|] == "0" + s[..|s| - 1];
      ValueLeadingZero(s[..|s| - 1]);
    }
  }

  lemma {:induction false} ValueLeadingZeros(k: nat, s: string)
    requires AllDigits(s)
    ensures Value(Zeros(k) + s) == Value(s)
    decreases k
  {
    if k > 0 {
      assert Zeros(k) + s == "0" + (Zeros(k - 1) + s);
      ValueLeadingZero(Zeros(k - 1) + s);
      ValueLeadingZeros(k - 1, s);
    } else {
      assert Zeros(0) + s == s;
    }
  }

  /** The zero-filled format is read back as the number it formats, whatever the width. */
  lemma ZeroPadValue(n: nat, width: nat)
    ensures Value(ZeroPad(n, width)) == n
  {
    var d := Decimal(n);
    ValueOfDecimal(n);
    if |d| < width {
      ValueLeadingZeros(width - |d|, d);
    } else {
      assert ZeroPad(n, width) == d;
    }
  }

  /** Different numbers never format to the same string, at any width. */
  lemma ZeroPadInjective(a: nat, b: nat, width: nat)
    requires ZeroPad(a, width) == ZeroPad(b, width)
    ensures a == b
  {
    ZeroPadValue(a, width);
    ZeroPadValue(b, width);
  }

  /** A larger number never has fewer digits: len(str(a)) <= len(str(b)) when a <= b. */
  lemma {:induction false} DecimalLengthMonotone(a: nat, b: nat)
    requires a <= b
    ensures |Decimal(a)| <= |Decimal(b)|
    decreases b
  {
    if a >= 10 {
      DecimalLengthMonotone(a / 10, b / 10);
    }
  }

  /** A number with at most `width` digits formats to exactly `width` characters. */
  lemma ZeroPadWidth(n: nat, bound: nat)
    requires n <= bound
    ensures |ZeroPad(n, |Decimal(bound)|)| == |Decimal(bound)|
  {
    DecimalLengthMonotone(n, bound);
  }

  lemma {:induction false} ValueBound(s: string)
    requires AllDigits(s)
    ensures Value(s) < Pow10(|s|)
    decreases |s|
  {
    if s != [] {
      ValueBound(s[..|s| - 1]);
    }
  }

  lemma MulTen(a: nat, b: nat)
    ensures a * (10 * b) == 10 * (a * b)
  {
  }

  /** Value read from the most significant digit. */
  lemma {:induction false} ValueFront(s: string)
    requires AllDigits(s) && |s| >= 1
    ensures Value(s) == DigitValue(s[0]) * Pow10(|s| - 1) + Value(s[1..])
    decreases |s|
  {
    if |s| >= 2 {
      var init, tail := s[..|s| - 1], s[1..];
      ValueFront(init);
      assert init[1..] == tail[..|tail| - 1];
      var d0, p, last := DigitValue(s[0]), Pow10(|s| - 2), DigitValue(s[|s| - 1]);
      var w, v := d0 * p, Value(init[1..]);
      assert Value(init) == w + v;
      assert Value(tail) == 10 * v + last;
      assert Value(s) == 10 * (w + v) + last;
      assert Pow10(|s| - 1) == 10 * p;
      MulTen(d0, p);
    } else {
      assert s[..0] == [];
    }
  }

  // ---------------------------------------------------------------------
  // String comparison
  // ---------------------------------------------------------------------

  /** Python's `a < b` on strings: lexicographic by code point, a proper prefix first. */
  predicate LexLess(a: string, b: string) {
    if a == [] then b != []
    else if b == [] then false
    else if a[0] != b[0] then a[0] < b[0]
    else LexLess(a[1..], b[1..])
  }

  lemma {:induction false} LexLessIrreflexive(a: string)
    ensures !LexLess(a, a)
    decreases |a|
  {
    if a != [] {
      LexLessIrreflexive(a[1..]);
    }
  }

  lemma {:induction false} LexLessCommonPrefix(p: string, x: string, y: string)
    ensures LexLess(p + x, p + y) == LexLess(x, y)
    decreases |p|
  {
    if p != [] {
      assert (p + x)[0] == (p + y)[0];
      assert (p + x)[1..] == p[1..] + x;
      assert (p + y)[1..] == p[1..] + y;
      LexLessCommonPrefix(p[1..], x, y);
    } else {
      assert p + x == x && p + y == y;
    }
  }

  /** Two different strings of the same length decide the comparison before any suffix is reached. */
  lemma {:induction false} LexLessSameLength(a: string, b: string, x: string, y: string)
    requires |a| == |b| && a != b
    ensures LexLess(a + x, b + y) == LexLess(a, b)
    decreases |a|
  {
    assert (a + x)[0] == a[0] && (b + y)[0] == b[0];
    if a[0] == b[0] {
      assert (a + x)[1..] == a[1..] + x;
      assert (b + y)[1..] == b[1..] + y;
      LexLessSameLength(a[1..], b[1..], x, y);
    }
  }

  lemma MulLeft(a: nat, b: nat, p: nat)
    requires a < b
    ensures (a + 1) * p <= b * p
  {
    var c := b - (a + 1);
    assert b * p == (a + 1) * p + c * p;
  }

  /** A smaller leading digit makes a smaller number, whatever follows. */
  lemma FirstDigitDecides(x: string, y: string)
    requires AllDigits(x) && AllDigits(y) && |x| == |y| >= 1
    requires DigitValue(x[0]) < DigitValue(y[0])
    ensures Value(x) < Value(y)
  {
    ValueFront(x);
    ValueFront(y);
    ValueBound(x[1..]);
    MulLeft(DigitValue(x[0]), DigitValue(y[0]), Pow10(|x| - 1));
  }

  /** On digit strings of one length, string order is numeric order. */
  lemma {:induction false} LexLessDigits(x: string, y: string)
    requires AllDigits(x) && AllDigits(y) && |x| == |y|
    ensures LexLess(x, y) <==> Value(x) < Value(y)
    decreases |x|
  {
    if x != [] {
      if DigitValue(x[0]) < DigitValue(y[0]) {
        FirstDigitDecides(x, y);
      } else if DigitValue(y[0]) < DigitValue(x[0]) {
        FirstDigitDecides(y, x);
      } else {
        assert x[0] == y[0];
        ValueFront(x);
        ValueFront(y);
        LexLessDigits(x[1..], y[1..]);
      }
    }
  }

  /** Zero-filled numbers of one width sort as the numbers do. */
  lemma ZeroPadOrder(a: nat, b: nat, bound: nat)
    requires a <= bound && b <= bound
    ensures LexLess(ZeroPad(a, |Decimal(bound)|), ZeroPad(b, |Decimal(bound)|)) <==> a < b
  {
    var w := |Decimal(bound)|;
    ZeroPadWidth(a, bound);
    ZeroPadWidth(b, bound);
    ZeroPadValue(a, w);
    ZeroPadValue(b, w);
    LexLessDigits(ZeroPad(a, w), ZeroPad(b, w));
  }

  // ---------------------------------------------------------------------
  // str.join and str.replace
  // ---------------------------------------------------------------------

  /** sep.join(xs). */
  function Join(xs: seq<string>, sep: string): string
  {
    if xs == [] then "" else if |xs| == 1 then xs[0] else xs[0] + sep + Join(xs[1..], sep)
  }

  /** s.split(sep) for a one-character separator: the pieces between separators, empty ones included. */
  function Split(s: string, sep: char): (r: seq<string>)
    ensures r != []
    decreases |s|
  {
    if s == [] then [""]
    else
      var rest := Split(s[1..], sep);
      if s[0] == sep then [""] + rest else [[s[0]] + rest[0]] + rest[1..]
  }

  lemma {:induction false} SplitWithoutSeparator(a: string, sep: char)
    requires sep !in a
    ensures Split(a, sep) == [a]
    decreases |a|
  {
    if a != [] {
      SplitWithoutSeparator(a[1..], sep);
      assert [a[0]] + a[1..] == a;
    }
  }

  lemma {:induction false} SplitAfterPiece(a: string, sep: char, rest: string)
    requires sep !in a
    ensures Split(a + [sep] + rest, sep) == [a] + Split(rest, sep)
    decreases |a|
  {
    var s := a + [sep] + rest;
    if a == [] {
      assert s[1..] == rest;
    } else {
      assert s[1..] == a[1..] + [sep] + rest;
      SplitAfterPiece(a[1..], sep, rest);
      assert [a[0]] + a[1..] == a;
    }
  }

  /**
   * Joining pieces that do not contain the separator can be undone by
   * splitting: a space-joined list of paths without spaces reads back as the
   * same list, in the same order.
   */
  lemma {:induction false} SplitJoin(xs: seq<string>, sep: char)
    requires xs != []
    requires forall x :: x in xs ==> sep !in x
    ensures Split(Join(xs, [sep]), sep) == xs
    decreases |xs|
  {
    if |xs| == 1 {
      SplitWithoutSeparator(xs[0], sep);
    } else {
      SplitJoin(xs[1..], sep);
      SplitAfterPiece(xs[0], sep, Join(xs[1..], [sep]));
      assert [xs[0]] + xs[1..] == xs;
    }
  }

  /** s.replace(pat, rep) for a non-empty pattern: every occurrence, left to right, without overlap. */
  function ReplaceAll(s: string, pat: string, rep: string): string
    requires pat != []
    decreases |s|
  {
    if |s| < |pat| then s
    else if s[..|pat|] == pat then rep + ReplaceAll(s[|pat|..], pat, rep)
    else [s[0]] + ReplaceAll(s[1..], pat, rep)
  }

  /** Text with no character that begins the pattern passes through unchanged. */
  lemma {:induction false} ReplaceAllSkip(a: string, b: string, pat: string, rep: string)
    requires pat != [] && pat[0] !in a
    ensures ReplaceAll(a + b, pat, rep) == a + ReplaceAll(b, pat, rep)
    decreases |a|
  {
    if a != [] {
      if |a + b| < |pat| {
        assert ReplaceAll(b, pat, rep) == b;
      } else {
        assert (a + b)[..|pat|][0] == a[0];
        assert (a + b)[1..] == a[1..] + b;
        ReplaceAllSkip(a[1..], b, pat, rep);
      }
    } else {
      assert a + b == b;
    }
  }

  /** When no occurrence starts at the front, the first character is kept. */
  lemma ReplaceAllKeepsFirst(s: string, pat: string, rep: string)
    requires pat != [] && s != []
    requires |s| < |pat| || s[..|pat|] != pat
    ensures ReplaceAll(s, pat, rep) == [s[0]] + ReplaceAll(s[1..], pat, rep)
  {
    if |s| < |pat| {
      assert ReplaceAll(s[1..], pat, rep) == s[1..];
    }
  }

  /** An occurrence of a slash-free pattern cannot begin within |pat| characters before a '/'. */
  lemma NoMatchAcrossSlash(a: string, b: string, pat: string)
    requires pat != [] && '/' !in pat
    requires a != [] && a[|a| - 1] == '/' && |a| <= |pat| <= |a + b|
    ensures (a + b)[..|pat|] != pat
  {
    assert (a + b)[..|pat|][|a| - 1] == '/';
  }

  /** An occurrence at the front of a is also one at the front of a + b. */
  lemma ReplaceAllMatchStep(a: string, b: string, pat: string, rep: string)
    requires pat != [] && |a| > |pat| && a[..|pat|] == pat
    requires ReplaceAll(a[|pat|..] + b, pat, rep) == ReplaceAll(a[|pat|..], pat, rep) + ReplaceAll(b, pat, rep)
    ensures ReplaceAll(a + b, pat, rep) == ReplaceAll(a, pat, rep) + ReplaceAll(b, pat, rep)
  {
    var ab := a + b;
    assert ab[..|pat|] == pat;
    assert ab[|pat|..] == a[|pat|..] + b;
  }

  /** Without an occurrence at the front of a + b, its first character (that of a) is kept. */
  lemma ReplaceAllKeepsFirstOfConcat(a: string, b: string, pat: string, rep: string)
    requires pat != [] && a != []
    requires |a + b| < |pat| || (a + b)[..|pat|] != pat
    ensures ReplaceAll(a + b, pat, rep) == [a[0]] + ReplaceAll(a[1..] + b, pat, rep)
  {
    var ab := a + b;
    ReplaceAllKeepsFirst(ab, pat, rep);
    assert ab[0] == a[0] && ab[1..] == a[1..] + b;
  }

  /** No occurrence at the front of a + b means none at the front of a. */
  lemma NoMatchInPrefix(a: string, b: string, pat: string)
    requires pat != []
    requires |a + b| < |pat| || (a + b)[..|pat|] != pat
    ensures |a| < |pat| || a[..|pat|] != pat
  {
    if |a| >= |pat| {
      assert a[..|pat|] == (a + b)[..|pat|];
    }
  }

  /** Without an occurrence at the front of a + b, both sides keep the first character of a. */
  lemma ReplaceAllSkipStep(a: string, b: string, pat: string, rep: string)
    requires pat != [] && |a| > 1
    requires |a + b| < |pat| || (a + b)[..|pat|] != pat
    requires ReplaceAll(a[1..] + b, pat, rep) == ReplaceAll(a[1..], pat, rep) + ReplaceAll(b, pat, rep)
    ensures ReplaceAll(a + b, pat, rep) == ReplaceAll(a, pat, rep) + ReplaceAll(b, pat, rep)
  {
    ReplaceAllKeepsFirstOfConcat(a, b, pat, rep);
    NoMatchInPrefix(a, b, pat);
    ReplaceAllKeepsFirst(a, pat, rep);
    ConsThenConcat(ReplaceAll(a + b, pat, rep), ReplaceAll(a, pat, rep), a[0],
                   ReplaceAll(a[1..], pat, rep), ReplaceAll(b, pat, rep));
  }

  /** If whole == [c] + (x + y) and front == [c] + x, then whole == front + y. */
  lemma ConsThenConcat(whole: string, front: string, c: char, x: string, y: string)
    requires whole == [c] + (x + y) && front == [c] + x
    ensures whole == front + y
  {
  }

  /** No occurrence of a slash-free pattern spans a '/', so replacing splits at one. */
  lemma {:induction false} ReplaceAllSplitAtSlash(a: string, b: string, pat: string, rep: string)
    requires pat != [] && '/' !in pat
    requires a != [] && a[|a| - 1] == '/'
    ensures ReplaceAll(a + b, pat, rep) == ReplaceAll(a, pat, rep) + ReplaceAll(b, pat, rep)
    decreases |a|
  {
    var ab := a + b;
    if |a| <= |pat| <= |ab| {
      NoMatchAcrossSlash(a, b, pat);
    }
    if |a| == 1 {
      assert ab == [a[0]] + b;
      assert ab[1..] == b;
      ReplaceAllKeepsFirst(ab, pat, rep);
      ReplaceAllKeepsFirst(a, pat, rep);
      assert a[1..] == [];
    } else if |a| > |pat| && a[..|pat|] == pat {
      assert a[|pat|..][|a| - |pat| - 1] == '/';
      ReplaceAllSplitAtSlash(a[|pat|..], b, pat, rep);
      ReplaceAllMatchStep(a, b, pat, rep);
    } else {
      assert |a| > |pat| ==> ab[..|pat|] == a[..|pat|];
      ReplaceAllSplitAtSlash(a[1..], b, pat, rep);
      ReplaceAllSkipStep(a, b, pat, rep);
    }
  }

  /** Replacing a slash-free pattern keeps a trailing '/'. */
  lemma {:induction false} ReplaceAllEndsWithSlash(a: string, pat: string, rep: string)
    requires pat != [] && '/' !in pat
    requires a != [] && a[|a| - 1] == '/'
    ensures var r := ReplaceAll(a, pat, rep); r != [] && r[|r| - 1] == '/'
    decreases |a|
  {
    if |a| == |pat| {
      assert a + [] == a;
      NoMatchAcrossSlash(a, [], pat);
    }
    if |a| >= |pat| && a[..|pat|] == pat {
      ReplaceAllEndsWithSlash(a[|pat|..], pat, rep);
    } else {
      ReplaceAllKeepsFirst(a, pat, rep);
      if |a| > 1 {
        ReplaceAllEndsWithSlash(a[1..], pat, rep);
      }
    }
  }

  // ---------------------------------------------------------------------
  // os.path (POSIX)
  // ---------------------------------------------------------------------

  /** os.path.join(a, b): an absolute b wins; otherwise one '/' separates them unless a is empty or ends in one. */
  function PathJoin(a: string, b: string): string
  {
    if b != [] && b[0] == '/' then b
    else if a == [] || a[|a| - 1] == '/' then a + b
    else a + "/" + b
  }

  /** os.path.basename(p): everything after the last '/'. */
  function Basename(p: string): (b: string)
    ensures '/' !in b
    decreases |p|
  {
    if p == [] then []
    else if p[|p| - 1] == '/' then []
    else Basename(p[..|p| - 1]) + [p[|p| - 1]]
  }

  /** The last component of a path that ends in a slash-free name is that name. */
  lemma {:induction false} BasenameAfterSlash(a: string, b: string)
    requires '/' !in b
    requires a == [] || a[|a| - 1] == '/'
    ensures Basename(a + b) == b
    decreases |b|
  {
    if b == [] {
      assert a + b == a;
    } else {
      assert (a + b)[..|a + b| - 1] == a + b[..|b| - 1];
      BasenameAfterSlash(a, b[..|b| - 1]);
    }
  }

  /** The last component of dir/<stem>.cpp after replacing ".cpp" by ".o" is <stem>.o. */
  lemma CppToObjName(dir: string, stem: string)
    requires dir != [] && dir[|dir| - 1] == '/'
    requires '.' !in stem && '/' !in stem
    ensures Basename(ReplaceAll(dir + (stem + ".cpp"), ".cpp", ".o")) == stem + ".o"
  {
    ReplaceAllSplitAtSlash(dir, stem + ".cpp", ".cpp", ".o");
    ReplaceAllEndsWithSlash(dir, ".cpp", ".o");
    ReplaceAllSkip(stem, ".cpp", ".cpp", ".o");
    assert ReplaceAll(".cpp", ".cpp", ".o") == ".o" by {
      assert ".cpp"[..4] == ".cpp" && ".cpp"[4..] == [];
    }
    BasenameAfterSlash(ReplaceAll(dir, ".cpp", ".o"), stem + ".o");
  }
}
