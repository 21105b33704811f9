/**
 * The string primitives the status bar is computed from, with the JavaScript
 * semantics the renderers rely on: the whitespace class shared by `\s` and
 * `String.prototype.trim`, the count of matches of `/\S+/g`, `toUpperCase`,
 * the last element of `split(/[\\/]/)`, the line and column of an offset, and
 * the decimal form of a number in a template literal.
 */
module Text {

  /** JavaScript's WhiteSpace and LineTerminator code points, matched by `\s` and removed by `trim`. */
  predicate IsSpace(c: char) {
    || c == ' ' || c == '\t' || c == '\n' || c == '\r' || c == '\U{B}' || c == '\U{C}'
    || c == '\U{A0}' || c == '\U{1680}' || ('\U{2000}' <= c <= '\U{200A}')
    || c == '\U{2028}' || c == '\U{2029}' || c == '\U{202F}' || c == '\U{205F}'
    || c == '\U{3000}' || c == '\U{FEFF}'
  }

  predicate AllSpace(s: string) {
    forall i :: 0 <= i < |s| ==> IsSpace(s[i])
  }

  /** Neither end of `s` is whitespace. */
  predicate Trimmed(s: string) {
    s == [] || (!IsSpace(s[0]) && !IsSpace(s[|s| - 1]))
  }

  /** Removes the leading whitespace of `s`. */
  function TrimStart(s: string): (r: string)
    ensures |r| <= |s| && r == s[|s| - |r|..]
    ensures AllSpace(s[..|s| - |r|])
    ensures r == [] || !IsSpace(r[0])
  {
    if s != [] && IsSpace(s[0]) then TrimStart(s[1..]) else s
  }

  /** Leading whitespace of a text that is not all whitespace ends inside it, so what follows is kept. */
  lemma {:induction false} TrimStartKeepsRest(a: string, b: string)
    requires !AllSpace(a)
    ensures TrimStart(a + b) == TrimStart(a) + b
    decreases |a|
  {
    assert (a + b)[0] == a[0];
    if IsSpace(a[0]) {
      assert !AllSpace(a[1..]) by {
        var i :| 0 <= i < |a| && !IsSpace(a[i]);
        assert a[1..][i - 1] == a[i];
      }
      assert (a + b)[1..] == a[1..] + b;
      TrimStartKeepsRest(a[1..], b);
    }
  }

  /** A text that is all whitespace is removed entirely with the leading whitespace of what follows it. */
  lemma {:induction false} TrimStartSkipsBlank(a: string, b: string)
    requires AllSpace(a)
    ensures TrimStart(a + b) == TrimStart(b)
    decreases |a|
  {
    if a == [] {
      assert a + b == b;
    } else {
      assert (a + b)[0] == a[0];
      assert (a + b)[1..] == a[1..] + b;
      assert AllSpace(a[1..]) by {
        forall i | 0 <= i < |a| - 1
          ensures IsSpace(a[1..][i])
        {
          assert a[1..][i] == a[i + 1];
        }
      }
      TrimStartSkipsBlank(a[1..], b);
    }
  }

  /** Trailing whitespace appended to a text is removed along with the text's own. */
  lemma {:induction false} TrimEndSpaces(a: string, b: string)
    requires AllSpace(b)
    ensures TrimEnd(a + b) == TrimEnd(a)
    decreases |b|
  {
    if b == [] {
      assert a + b == a;
    } else {
      var ab := a + b;
      assert ab[|ab| - 1] == b[|b| - 1];
      assert ab[..|ab| - 1] == a + b[..|b| - 1];
      TrimEndSpaces(a, b[..|b| - 1]);
    }
  }

  /** Removes the trailing whitespace of `s`. */
  function TrimEnd(s: string): (r: string)
    ensures |r| <= |s| && r == s[..|r|]
    ensures AllSpace(s[|r|..])
    ensures r == [] || !IsSpace(r[|r| - 1])
  {
    if s != [] && IsSpace(s[|s| - 1]) then TrimEnd(s[..|s| - 1]) else s
  }

  /** Text already starting with a non-space character has no leading whitespace to remove. */
  lemma TrimStartKeeps(s: string)
    requires s == [] || !IsSpace(s[0])
    ensures TrimStart(s) == s
  {
  }

  /** Text already ending in a non-space character has no trailing whitespace to remove. */
  lemma TrimEndKeeps(s: string)
    requires s == [] || !IsSpace(s[|s| - 1])
    ensures TrimEnd(s) == s
  {
  }

  /** `s.trim()` */
  function Trim(s: string): (r: string)
    ensures Trimmed(r)
    ensures r == [] <==> AllSpace(s)
    ensures Trimmed(s) ==> r == s
  {
    var t := TrimStart(s);
    var r := TrimEnd(t);
    assert r != [] ==> r[0] == t[0];
    assert t != [] ==> t[0] == s[|s| - |t|];
    assert s[..|s|] == s;
    r
  }

  /** `trim` keeps exactly the text between a whitespace prefix and a whitespace suffix. */
  lemma TrimInfix(s: string)
    ensures exists pre, post :: s == pre + Trim(s) + post && AllSpace(pre) && AllSpace(post)
  {
    WhitespaceInfix(s, TrimStart(s), Trim(s));
  }

  /** A prefix of a suffix, with only whitespace cut off either side, is an infix between two whitespace runs. */
  lemma WhitespaceInfix(s: string, t: string, r: string)
    requires |t| <= |s| && t == s[|s| - |t|..] && AllSpace(s[..|s| - |t|])
    requires |r| <= |t| && r == t[..|r|] && AllSpace(t[|r|..])
    ensures exists pre, post :: s == pre + r + post && AllSpace(pre) && AllSpace(post)
  {
    var pre, post := s[..|s| - |t|], t[|r|..];
    assert s == pre + t;
    assert t == r + post;
    assert s == pre + r + post;
  }

  /** Drops the maximal run of non-whitespace at the front of `s`. */
  function SkipWord(s: string): (r: string)
    ensures |r| <= |s| && r == s[|s| - |r|..]
    ensures r == [] || IsSpace(r[0])
    ensures s != [] && !IsSpace(s[0]) ==> |r| < |s|
  {
    if s != [] && !IsSpace(s[0]) then SkipWord(s[1..]) else s
  }

  /**
   * The number of matches of `/\S+/g` in `s`: scanning left to right, skip
   * whitespace, then consume one maximal run of non-whitespace as one match.
   */
  function CountRuns(s: string): nat
    decreases |s|
  {
    if s == [] then 0
    else if IsSpace(s[0]) then CountRuns(s[1..])
    else 1 + CountRuns(SkipWord(s))
  }

  /** A text has no words exactly when it is all whitespace. */
  lemma {:induction false} CountRunsZero(s: string)
    ensures CountRuns(s) == 0 <==> AllSpace(s)
    decreases |s|
  {
    if s == [] {
    } else if IsSpace(s[0]) {
      CountRunsZero(s[1..]);
      assert AllSpace(s) <==> AllSpace(s[1..]) by {
        assert forall i :: 0 < i < |s| ==> s[i] == s[1..][i - 1];
      }
    } else {
      assert !AllSpace(s) by {
        assert !IsSpace(s[0]);
      }
    }
  }

  /** Skipping a word is unaffected by what follows a whitespace character. */
  lemma {:induction false} SkipWordAppend(a: string, t: string)
    requires t == [] || IsSpace(t[0])
    ensures SkipWord(a + t) == SkipWord(a) + t
    decreases |a|
  {
    if a != [] {
      if !IsSpace(a[0]) {
        assert (a + t)[1..] == a[1..] + t;
        SkipWordAppend(a[1..], t);
      }
    }
  }

  /** Words on both sides of a whitespace character add up: the pattern never matches across it. */
  lemma {:induction false} CountRunsJoin(a: string, sp: char, b: string)
    requires IsSpace(sp)
    ensures CountRuns(a + [sp] + b) == CountRuns(a) + CountRuns(b)
    decreases |a|
  {
    var s := a + [sp] + b;
    if a == [] {
      assert s == [sp] + b;
      assert s[1..] == b;
    } else if IsSpace(a[0]) {
      assert s[0] == a[0];
      assert s[1..] == a[1..] + [sp] + b;
      CountRunsJoin(a[1..], sp, b);
    } else {
      CountRunsJoinWord(a, sp, b);
    }
  }

  /** The case of CountRunsJoin where `a` starts with a word. */
  lemma {:induction false} CountRunsJoinWord(a: string, sp: char, b: string)
    requires IsSpace(sp)
    requires a != [] && !IsSpace(a[0])
    ensures CountRuns(a + [sp] + b) == CountRuns(a) + CountRuns(b)
    decreases |a|, 0
  {
    CountRunsWordAppend(a, sp, b);
    CountRunsJoin(SkipWord(a), sp, b);
    CountRunsWordStart(a);
  }

  /** A text starting with a non-space character counts its first word and then the rest. */
  lemma CountRunsWordStart(s: string)
    requires s != [] && !IsSpace(s[0])
    ensures CountRuns(s) == 1 + CountRuns(SkipWord(s))
  {
  }

  /** A word followed by whitespace counts once before what follows it. */
  lemma CountRunsWordAppend(a: string, sp: char, b: string)
    requires a != [] && !IsSpace(a[0]) && IsSpace(sp)
    ensures CountRuns(a + [sp] + b) == 1 + CountRuns(SkipWord(a) + [sp] + b)
  {
    var tail := [sp] + b;
    assert a + [sp] + b == a + tail;
    assert SkipWord(a) + [sp] + b == SkipWord(a) + tail;
    assert (a + tail)[0] == a[0];
    CountRunsWordStart(a + tail);
    SkipWordAppend(a, tail);
  }

  /** A non-empty run without whitespace is one word. */
  lemma {:induction false} CountRunsWord(w: string)
    requires w != [] && forall i :: 0 <= i < |w| ==> !IsSpace(w[i])
    ensures CountRuns(w) == 1
  {
    var r := SkipWord(w);
    if r != [] {
      assert false;
    }
  }

  /** Leading whitespace adds no word. */
  lemma {:induction false} CountRunsTrimStart(s: string)
    ensures CountRuns(TrimStart(s)) == CountRuns(s)
    decreases |s|
  {
    if s != [] && IsSpace(s[0]) {
      CountRunsTrimStart(s[1..]);
    }
  }

  /** Trailing whitespace adds no word. */
  lemma CountRunsTrimEnd(s: string)
    ensures CountRuns(TrimEnd(s)) == CountRuns(s)
  {
    var r := TrimEnd(s);
    var tail := s[|r|..];
    if tail != [] {
      assert s == r + [tail[0]] + tail[1..];
      CountRunsJoin(r, tail[0], tail[1..]);
      CountRunsZero(tail[1..]);
    } else {
      assert s == r;
    }
  }

  /** `(text.trim().match(/\S+/g) || []).length` */
  function WordCount(text: string): (n: nat)
    ensures n == CountRuns(text)
    ensures n == 0 <==> AllSpace(text)
  {
    CountRunsTrimStart(text);
    CountRunsTrimEnd(TrimStart(text));
    CountRunsZero(text);
    CountRuns(Trim(text))
  }

  /** `c.toUpperCase()` on the ASCII letters. */
  function UpperChar(c: char): char {
    if 'a' <= c <= 'z' then (c as int - 32) as char else c
  }

  /** `s.toUpperCase()` on ASCII text. */
  function Upper(s: string): (r: string)
    ensures |r| == |s|
    ensures forall i :: 0 <= i < |s| ==> r[i] == UpperChar(s[i])
  {
    seq(|s|, i requires 0 <= i < |s| => UpperChar(s[i]))
  }

  predicate IsSeparator(c: char) {
    c == '/' || c == '\\'
  }

  /**
   * `path.split(/[\\/]/).pop()`: the maximal separator-free suffix of `path`,
   * which is empty when the path ends in a separator.
   */
  function BaseName(path: string): (name: string)
    ensures |name| <= |path| && name == path[|path| - |name|..]
    ensures forall i :: 0 <= i < |name| ==> !IsSeparator(name[i])
    ensures |name| == |path| || IsSeparator(path[|path| - |name| - 1])
  {
    if path == [] then []
    else if IsSeparator(path[|path| - 1]) then []
    else BaseName(path[..|path| - 1]) + [path[|path| - 1]]
  }

  /** The base name of `dir` + separator + `name` is `name`, whatever `dir` holds. */
  lemma {:induction false} BaseNameJoin(dir: string, sep: char, name: string)
    requires IsSeparator(sep)
    requires forall i :: 0 <= i < |name| ==> !IsSeparator(name[i])
    ensures BaseName(dir + [sep] + name) == name
  {
    var path := dir + [sep] + name;
    if name != [] {
      assert path[..|path| - 1] == dir + [sep] + name[..|name| - 1];
      BaseNameJoin(dir, sep, name[..|name| - 1]);
      assert name == name[..|name| - 1] + [name[|name| - 1]];
    }
  }

  /** The offset at which the line holding `head` starts. */
  function LineStart(text: string, head: nat): (from: nat)
    requires head <= |text|
    ensures from <= head
    ensures forall i :: from <= i < head ==> text[i] != '\n'
    ensures from == 0 || text[from - 1] == '\n'
  {
    if head == 0 then 0
    else if text[head - 1] == '\n' then head
    else LineStart(text, head - 1)
  }

  /** The number of line breaks in `s`. */
  function Breaks(s: string): nat {
    if s == [] then 0 else Breaks(s[..|s| - 1]) + (if s[|s| - 1] == '\n' then 1 else 0)
  }

  /** `doc.lineAt(head).number`: lines are numbered from 1. */
  function LineNumber(text: string, head: nat): (line: nat)
    requires head <= |text|
    ensures line >= 1
  {
    Breaks(text[..head]) + 1
  }

  /** `head - doc.line(line).from + 1`: columns are numbered from 1. */
  function Column(text: string, head: nat): (col: nat)
    requires head <= |text|
    ensures 1 <= col <= head + 1
    ensures forall i :: head + 1 - col <= i < head ==> text[i] != '\n'
    ensures col == head + 1 || text[head - col] == '\n'
  {
    head - LineStart(text, head) + 1
  }

  /** Going back from `head` to the start of its line crosses no line break. */
  lemma {:induction false} SameLine(text: string, head: nat)
    requires head <= |text|
    ensures LineNumber(text, LineStart(text, head)) == LineNumber(text, head)
    decreases head
  {
    if head > 0 && text[head - 1] != '\n' {
      assert text[..head][..head - 1] == text[..head - 1];
      SameLine(text, head - 1);
    }
  }

  /** Right after a line break the cursor is in column 1 of the next line. */
  lemma AfterBreak(text: string, i: nat)
    requires i < |text| && text[i] == '\n'
    ensures Column(text, i + 1) == 1
    ensures LineNumber(text, i + 1) == LineNumber(text, i) + 1
  {
    assert text[..i + 1][..i] == text[..i];
  }

  /** On the first line the column is the offset plus one. */
  lemma FirstLine(text: string, head: nat)
    requires head <= |text|
    requires forall i :: 0 <= i < head ==> text[i] != '\n'
    ensures LineNumber(text, head) == 1
    ensures Column(text, head) == head + 1
  {
    NoBreaks(text[..head]);
  }

  lemma {:induction false} NoBreaks(s: string)
    requires forall i :: 0 <= i < |s| ==> s[i] != '\n'
    ensures Breaks(s) == 0
  {
    if s != [] {
      NoBreaks(s[..|s| - 1]);
    }
  }

  predicate IsDigit(c: char) {
    '0' <= c <= '9'
  }

  function DigitChar(d: nat): (c: char)
    requires d < 10
    ensures IsDigit(c)
  {
    ('0' as int + d) as char
  }

  /** `${n}`: the decimal digits of `n`, without leading zeros. */
  function Decimal(n: nat): (s: string)
    ensures s != []
    ensures forall i :: 0 <= i < |s| ==> IsDigit(s[i])
    ensures |s| > 1 ==> s[0] != '0'
  {
    if n < 10 then [DigitChar(n)] else Decimal(n / 10) + [DigitChar(n % 10)]
  }

  /** The number a string of digits denotes. */
  function DigitsValue(s: string): nat
    requires forall i :: 0 <= i < |s| ==> IsDigit(s[i])
  {
    if s == [] then 0
    else
      assert IsDigit(s[|s| - 1]);
      DigitsValue(s[..|s| - 1]) * 10 + (s[|s| - 1] as int - '0' as int)
  }

  /** The maximal run of digits at the front of `s`. */
  function LeadingDigits(s: string): (d: string)
    ensures |d| <= |s| && d == s[..|d|]
    ensures forall i :: 0 <= i < |d| ==> IsDigit(s[i])
    ensures |d| == |s| || !IsDigit(s[|d|])
  {
    if s != [] && IsDigit(s[0]) then [s[0]] + LeadingDigits(s[1..]) else []
  }

  /** Reading the digits back gives the number. */
  lemma {:induction false} DecimalValue(n: nat)
    ensures DigitsValue(Decimal(n)) == n
  {
    if n >= 10 {
      var s := Decimal(n);
      assert s[..|s| - 1] == Decimal(n / 10);
      DecimalValue(n / 10);
    }
  }

  /** A number followed by a non-digit is read back as that number. */
  lemma DecimalRead(n: nat, rest: string)
    requires rest == [] || !IsDigit(rest[0])
    ensures LeadingDigits(Decimal(n) + rest) == Decimal(n)
    ensures DigitsValue(LeadingDigits(Decimal(n) + rest)) == n
  {
    LeadingDigitsPrefix(Decimal(n), rest);
    DecimalValue(n);
  }

  /** Digits followed by a non-digit are exactly the leading digits. */
  lemma {:induction false} LeadingDigitsPrefix(d: string, rest: string)
    requires forall i :: 0 <= i < |d| ==> IsDigit(d[i])
    requires rest == [] || !IsDigit(rest[0])
    ensures LeadingDigits(d + rest) == d
  {
    if d != [] {
      assert (d + rest)[1..] == d[1..] + rest;
      LeadingDigitsPrefix(d[1..], rest);
    }
  }
}
