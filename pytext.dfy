/**
 * The few Python `str` operations the dashboard relies on, written out on
 * `seq<char>`: `strip`, `split`, `endswith`, `int(...)`, `str(...)`, string
 * comparison and `os.path.join`.
 */
module PyText {
  import opened Wrappers
  import opened Sorting

  /** Python's `str.isspace` for one character. */
  predicate IsSpace(c: char) {
    || c == ' ' || ('\t' <= c <= '\r') || ('\U{1c}' <= c <= '\U{1f}')
    || c == '\U{85}' || c == '\U{a0}' || c == '\U{1680}' || ('\U{2000}' <= c <= '\U{200a}')
    || c == '\U{2028}' || c == '\U{2029}' || c == '\U{202f}' || c == '\U{205f}' || c == '\U{3000}'
  }

  function StripLeft(s: string): (r: string)
    ensures |r| <= |s| && r == s[|s| - |r|..]
    ensures r == [] || !IsSpace(r[0])
    ensures forall i :: 0 <= i < |s| - |r| ==> IsSpace(s[i])
  {
    if s != [] && IsSpace(s[0]) then StripLeft(s[1..]) else s
  }

  function StripRight(s: string): (r: string)
    ensures |r| <= |s| && r == s[..|r|]
    ensures r == [] || !IsSpace(r[|r| - 1])
    ensures forall i :: |r| <= i < |s| ==> IsSpace(s[i])
  {
    if s != [] && IsSpace(s[|s| - 1]) then StripRight(s[..|s| - 1]) else s
  }

  /** Python's `s.strip()`. */
  function Strip(s: string): string {
    StripRight(StripLeft(s))
  }

  predicate IsStripped(s: string) {
    s == [] || (!IsSpace(s[0]) && !IsSpace(s[|s| - 1]))
  }

  lemma StripIsStripped(s: string)
    ensures IsStripped(Strip(s))
  {
    var l := StripLeft(s);
    var r := StripRight(l);
    if r != [] {
      assert r[0] == l[0];
    }
  }

  lemma StripIsSlice(s: string)
    ensures Strip(s) == s[|s| - |StripLeft(s)|..|s| - |StripLeft(s)| + |Strip(s)|]
  {
    var l := StripLeft(s);
    var i := |s| - |l|;
    var r := StripRight(l);
    assert l == s[i..];
    assert r == l[..|r|];
    SliceOfSuffix(s, i, |r|);
    assert Strip(s) == r;
  }

  lemma SliceOfSuffix(s: string, i: nat, k: nat)
    requires i + k <= |s|
    ensures s[i..][..k] == s[i..i + k]
  {
  }

  /** `strip` removes exactly the surrounding white space: the result is a
      contiguous piece of `s` with no white space at either end, and every
      character cut off is white space. */
  lemma StripSpec(s: string)
    ensures IsStripped(Strip(s))
    ensures Strip(s) == s[|s| - |StripLeft(s)|..|s| - |StripLeft(s)| + |Strip(s)|]
  {
    StripIsStripped(s);
    StripIsSlice(s);
  }

  /** `s.strip()` is empty exactly when `s` is all white space. */
  lemma {:induction false} StripEmpty(s: string)
    ensures Strip(s) == [] <==> forall i :: 0 <= i < |s| ==> IsSpace(s[i])
  {
    var l := StripLeft(s);
    if Strip(s) == [] {
      forall i | 0 <= i < |s| ensures IsSpace(s[i]) {
      }
    }
  }

  lemma {:induction false} StripOfStripped(s: string)
    requires IsStripped(s)
    ensures Strip(s) == s
  {
  }

  /** `[line.strip() for line in lines if line.strip()]`. */
  function StrippedNonBlank(lines: seq<string>): (r: seq<string>)
    ensures |r| <= |lines|
    ensures forall i :: 0 <= i < |r| ==> r[i] != [] && IsStripped(r[i])
  {
    if lines == [] then []
    else
      var head := Strip(lines[0]);
      var rest := StrippedNonBlank(lines[1..]);
      StripIsStripped(lines[0]);
      if head != [] then [head] + rest else rest
  }

  /** The first line contributes its stripped text, unless that is empty,
      ahead of what the other lines give. */
  lemma StrippedNonBlankCons(lines: seq<string>)
    requires lines != []
    ensures StrippedNonBlank(lines) ==
              (if Strip(lines[0]) == [] then [] else [Strip(lines[0])]) + StrippedNonBlank(lines[1..])
  {
  }

  /** The comprehension runs over the lines in order: the lines of `a + b`
      give the results of `a` followed by those of `b`. */
  lemma {:induction false} StrippedNonBlankAppend(a: seq<string>, b: seq<string>)
    ensures StrippedNonBlank(a + b) == StrippedNonBlank(a) + StrippedNonBlank(b)
  {
    if a == [] {
      assert a + b == b;
    } else {
      var ab := a + b;
      assert ab[0] == a[0] && ab[1..] == a[1..] + b;
      StrippedNonBlankCons(ab);
      StrippedNonBlankCons(a);
      StrippedNonBlankAppend(a[1..], b);
      AppendAssoc(if Strip(a[0]) == [] then [] else [Strip(a[0])], StrippedNonBlank(a[1..]), StrippedNonBlank(b));
    }
  }

  /** The results are exactly the non-empty stripped lines. */
  lemma {:induction false} StrippedNonBlankContent(lines: seq<string>)
    ensures forall i :: 0 <= i < |lines| && Strip(lines[i]) != [] ==> Strip(lines[i]) in StrippedNonBlank(lines)
    ensures forall x :: x in StrippedNonBlank(lines) ==> exists i :: 0 <= i < |lines| && Strip(lines[i]) == x
  {
    if lines != [] {
      var tail := lines[1..];
      StrippedNonBlankContent(tail);
      StrippedNonBlankCons(lines);
      var r := StrippedNonBlank(lines);
      var rest := StrippedNonBlank(tail);
      forall i | 0 <= i < |lines| && Strip(lines[i]) != [] ensures Strip(lines[i]) in r {
        if i > 0 {
          assert tail[i - 1] == lines[i];
          assert Strip(lines[i]) in rest;
        }
      }
      forall x | x in r ensures exists i :: 0 <= i < |lines| && Strip(lines[i]) == x {
        if x !in rest {
          assert Strip(lines[0]) == x;
        } else {
          var j :| 0 <= j < |tail| && Strip(tail[j]) == x;
          assert Strip(lines[j + 1]) == x;
        }
      }
    }
  }

  /** Lines that are already stripped and non-blank come back unchanged. */
  lemma {:induction false} StrippedNonBlankOfClean(lines: seq<string>)
    requires forall i :: 0 <= i < |lines| ==> lines[i] != [] && IsStripped(lines[i])
    ensures StrippedNonBlank(lines) == lines
  {
    if lines != [] {
      StripOfStripped(lines[0]);
      StrippedNonBlankOfClean(lines[1..]);
    }
  }

  // ---------------------------------------------------------------- split

  /** Python's `s.split(sep)` for a one-character separator. */
  function Split(s: string, sep: char): (r: seq<string>)
    ensures |r| >= 1
    ensures forall i :: 0 <= i < |r| ==> sep !in r[i]
    ensures sep !in s ==> r == [s]
    ensures sep in s ==> |r| >= 2
  {
    if sep !in s then [s]
    else
      var i := IndexOf(s, sep);
      [s[..i]] + Split(s[i + 1..], sep)
  }

  /** A character absent from `s` is absent from every piece of its split. */
  lemma {:induction false} SplitAvoids(s: string, sep: char, c: char)
    requires c !in s
    ensures forall i :: 0 <= i < |Split(s, sep)| ==> c !in Split(s, sep)[i]
  {
    if sep in s {
      var i := IndexOf(s, sep);
      assert s == s[..i] + s[i..];
      SplitAvoids(s[i + 1..], sep, c);
    }
  }

  function IndexOf(s: string, c: char): (i: nat)
    requires c in s
    ensures i < |s| && s[i] == c && c !in s[..i]
  {
    if s[0] == c then 0 else 1 + IndexOf(s[1..], c)
  }

  /** `prefix + sep + rest` splits at the separator when `prefix` holds none. */
  lemma {:induction false} SplitAfterPrefix(prefix: string, sep: char, rest: string)
    requires sep !in prefix
    ensures Split(prefix + [sep] + rest, sep) == [prefix] + Split(rest, sep)
  {
    var s := prefix + [sep] + rest;
    assert s[|prefix|] == sep;
    var i := IndexOf(s, sep);
    assert i == |prefix|;
    assert s[..i] == prefix && s[i + 1..] == rest;
  }

  /** What a text-mode read sees of written text: each `\r\n` and each lone
      `\r` becomes `\n` (universal newlines). */
  function UniversalNewlines(s: string): (r: string)
    ensures '\r' !in r
    ensures '\n' in s || '\r' in s <==> '\n' in r
  {
    if s == [] then []
    else if s[0] == '\r' then
      if |s| > 1 && s[1] == '\n' then "\n" + UniversalNewlines(s[2..])
      else "\n" + UniversalNewlines(s[1..])
    else [s[0]] + UniversalNewlines(s[1..])
  }

  /** The lines a text-mode read yields for written text, without their
      line ends: split at `\r\n`, `\r` and `\n`. */
  function Lines(s: string): (r: seq<string>)
    ensures |r| >= 1
    ensures forall i :: 0 <= i < |r| ==> '\n' !in r[i] && '\r' !in r[i]
    ensures '\n' !in s && '\r' !in s ==> r == [s]
  {
    var t := UniversalNewlines(s);
    assert '\n' !in s && '\r' !in s ==> t == s by {
      if '\n' !in s && '\r' !in s { NoLineEndsUnchanged(s); }
    }
    SplitAvoids(t, '\n', '\r');
    Split(t, '\n')
  }

  lemma {:induction false} NoLineEndsUnchanged(s: string)
    requires '\n' !in s && '\r' !in s
    ensures UniversalNewlines(s) == s
  {
    if s != [] {
      NoLineEndsUnchanged(s[1..]);
    }
  }

  function EndsWith(s: string, suffix: string): bool {
    |suffix| <= |s| && s[|s| - |suffix|..] == suffix
  }

  // ---------------------------------------------------------------- numbers

  predicate IsDigit(c: char) { '0' <= c <= '9' }

  function DigitValue(c: char): nat
    requires IsDigit(c)
  {
    (c as int - '0' as int) as nat
  }

  function DigitChar(d: nat): (c: char)
    requires d < 10
    ensures IsDigit(c) && DigitValue(c) == d
  {
    ('0' as int + d) as char
  }

  /** Python's `str(n)` for a natural number: its decimal digits, no leading zero. */
  function NatToString(n: nat): (s: string)
    ensures |s| >= 1 && forall i :: 0 <= i < |s| ==> IsDigit(s[i])
    ensures |s| > 1 ==> s[0] != '0'
  {
    if n < 10 then [DigitChar(n)] else NatToString(n / 10) + [DigitChar(n % 10)]
  }

  /** Python's `str(i)` for an integer. */
  function IntToString(i: int): string {
    if i < 0 then "-" + NatToString(-i) else NatToString(i)
  }

  /** The value of a non-empty run of decimal digits, most significant first. */
  function DigitsValue(s: string): nat
    requires forall i :: 0 <= i < |s| ==> IsDigit(s[i])
  {
    if s == [] then 0 else DigitsValue(s[..|s| - 1]) * 10 + DigitValue(s[|s| - 1])
  }

  /** Python's grammar for the digits of `int(s)`: digits, with single
      underscores allowed between two digits. */
  predicate WellFormedDigits(s: string) {
    && s != []
    && IsDigit(s[0]) && IsDigit(s[|s| - 1])
    && (forall i :: 0 <= i < |s| ==> IsDigit(s[i]) || s[i] == '_')
    && (forall i :: 0 <= i < |s| - 1 ==> !(s[i] == '_' && s[i + 1] == '_'))
  }

  function DropUnderscores(s: string): (r: string)
    ensures (forall i :: 0 <= i < |s| ==> IsDigit(s[i]) || s[i] == '_') ==>
              forall i :: 0 <= i < |r| ==> IsDigit(r[i])
    ensures '_' !in s ==> r == s
  {
    if s == [] then [] else (if s[0] == '_' then [] else [s[0]]) + DropUnderscores(s[1..])
  }

  /** Python's `int(s)` on a `str` (base 10, ASCII digits): surrounding white
      space, an optional sign, then digits; anything else raises ValueError. */
  function ParseInt(s: string): Option<int> {
    ParseSigned(Strip(s))
  }

  /** The sign-and-digits part of `int(s)`, once the white space is gone. */
  function ParseSigned(t: string): Option<int> {
    if t == [] then None
    else
      var body := if t[0] == '-' || t[0] == '+' then t[1..] else t;
      if !WellFormedDigits(body) then None
      else
        var v: int := DigitsValue(DropUnderscores(body));
        Some(if t[0] == '-' then -v else v)
  }

  lemma {:induction false} NatToStringValue(n: nat)
    ensures DigitsValue(NatToString(n)) == n
  {
    if n >= 10 {
      NatToStringValue(n / 10);
      var s := NatToString(n / 10) + [DigitChar(n % 10)];
      assert s[..|s| - 1] == NatToString(n / 10);
    }
  }

  lemma {:induction false} NatToStringDigits(n: nat)
    ensures WellFormedDigits(NatToString(n)) && DropUnderscores(NatToString(n)) == NatToString(n)
    ensures IsStripped(NatToString(n))
  {
    assert '_' !in NatToString(n);
  }

  /** `int(str(n)) == n`. */
  lemma {:induction false} ParseNatToString(n: nat)
    ensures ParseInt(NatToString(n)) == Some(n)
  {
    NatToStringDigits(n);
    StripOfStripped(NatToString(n));
    NatToStringValue(n);
  }

  lemma {:induction false} NegativeStripped(d: string)
    requires WellFormedDigits(d)
    ensures Strip("-" + d) == "-" + d
  {
    var s := "-" + d;
    assert s[0] == '-' && s[|s| - 1] == d[|d| - 1];
    StripOfStripped(s);
  }

  /** On a string that `strip` leaves alone, `int` is the sign-and-digits parse. */
  lemma ParseIntOfStripped(t: string)
    requires Strip(t) == t
    ensures ParseInt(t) == ParseSigned(t)
  {
  }

  lemma {:induction false} ParseSignedNegative(s: string, d: string, n: nat)
    requires WellFormedDigits(d) && DropUnderscores(d) == d && DigitsValue(d) == n && s == "-" + d
    ensures ParseSigned(s) == Some(-(n as int))
  {
    assert s[0] == '-' && s[1..] == d;
  }

  /** `int("-" + d)` for digits `d` without underscores is minus their value. */
  lemma ParseNegativeDigits(d: string, n: nat)
    requires WellFormedDigits(d) && DropUnderscores(d) == d && DigitsValue(d) == n
    ensures ParseInt("-" + d) == Some(-(n as int))
  {
    var s := "-" + d;
    NegativeStripped(d);
    ParseIntOfStripped(s);
    ParseSignedNegative(s, d, n);
  }

  /** `int(str(-n)) == -n` for a positive `n`. */
  lemma ParseNegativeToString(n: nat)
    requires n > 0
    ensures ParseInt("-" + NatToString(n)) == Some(-(n as int))
  {
    NatToStringDigits(n);
    NatToStringValue(n);
    ParseNegativeDigits(NatToString(n), n);
  }

  /** `int(str(i)) == i`. */
  lemma {:induction false} ParseIntToString(i: int)
    ensures ParseInt(IntToString(i)) == Some(i)
  {
    if i >= 0 {
      ParseNatToString(i);
    } else {
      var n: nat := -i;
      assert IntToString(i) == "-" + NatToString(n);
      ParseNegativeToString(n);
      assert -(n as int) == i;
    }
  }

  /** Distinct numbers print differently. */
  lemma {:induction false} NatToStringInjective(m: nat, n: nat)
    requires NatToString(m) == NatToString(n)
    ensures m == n
  {
    NatToStringValue(m);
    NatToStringValue(n);
  }

  // ---------------------------------------------------------------- ordering

  /** Python's `a < b` on `str`: code-point lexicographic order. */
  predicate LexLess(a: string, b: string) {
    if a == [] then b != []
    else if b == [] then false
    else if a[0] != b[0] then a[0] < b[0]
    else LexLess(a[1..], b[1..])
  }

  lemma {:induction false} LexLessTransitive(a: string, b: string, c: string)
    requires LexLess(a, b) && LexLess(b, c)
    ensures LexLess(a, c)
  {
    if a != [] && b != [] && c != [] && a[0] == b[0] && b[0] == c[0] {
      LexLessTransitive(a[1..], b[1..], c[1..]);
    }
  }

  lemma {:induction false} LexLessIrreflexive(a: string)
    ensures !LexLess(a, a)
  {
    if a != [] {
      LexLessIrreflexive(a[1..]);
    }
  }

  /** A common prefix does not decide the order. */
  lemma {:induction false} LexLessCommonPrefix(p: string, a: string, b: string)
    ensures LexLess(p + a, p + b) == LexLess(a, b)
  {
    if p != [] {
      assert (p + a)[0] == (p + b)[0];
      assert (p + a)[1..] == p[1..] + a;
      assert (p + b)[1..] == p[1..] + b;
      assert LexLess(p + a, p + b) == LexLess(p[1..] + a, p[1..] + b);
      LexLessCommonPrefix(p[1..], a, b);
    } else {
      assert p + a == a && p + b == b;
    }
  }

  /** `max(paths)` under Python's string order, i.e. `sorted(paths)[-1]`. */
  function LexMax(paths: seq<string>): (r: string)
    requires paths != []
    ensures r in paths
    ensures forall p :: p in paths ==> !LexLess(r, p)
  {
    if |paths| == 1 then
      LexLessIrreflexive(paths[0]);
      paths[0]
    else
      var m := LexMax(paths[..|paths| - 1]);
      var last := paths[|paths| - 1];
      assert paths == paths[..|paths| - 1] + [last];
      if LexLess(m, last) then
        forall p | p in paths ensures !LexLess(last, p) {
          if p in paths[..|paths| - 1] && LexLess(last, p) {
            LexLessTransitive(m, last, p);
          }
          if p == last {
            LexLessIrreflexive(last);
          }
        }
        last
      else m
  }

  // ---------------------------------------------------------------- paths

  /** `os.path.join(a, b)` on POSIX. */
  function PathJoin(a: string, b: string): (r: string)
    ensures EndsWith(r, b)
  {
    if b != [] && b[0] == '/' then b
    else if a == [] || a[|a| - 1] == '/' then a + b
    else a + "/" + b
  }
}
