/**
 * The JavaScript string operations the worker relies on, on strings as
 * sequences of Unicode scalar values (`seq<char>`):
 *   `s.split(sep)` for a one-character separator, `parts.join(sep)`,
 *   `s.startsWith(prefix)` and `s.trim()`.
 */
module JsStrings {

  /** `s.split(sep)` with a one-character separator: the maximal runs of
      non-separator characters between separators, always at least one part
      (`"".split(sep)` is `[""]`). */
  function Split(s: string, sep: char): (parts: seq<string>)
    ensures |parts| >= 1
  {
    if s == [] then [""]
    else
      var rest := Split(s[1..], sep);
      if s[0] == sep then [""] + rest
      else [[s[0]] + rest[0]] + rest[1..]
  }

  /** No part of a split contains the separator. */
  lemma {:induction false} SplitPartsAreSeparatorFree(s: string, sep: char)
    ensures forall i :: 0 <= i < |Split(s, sep)| ==> sep !in Split(s, sep)[i]
  {
    if s != [] {
      SplitPartsAreSeparatorFree(s[1..], sep);
      var rest := Split(s[1..], sep);
      if s[0] != sep {
        assert sep !in [s[0]] + rest[0];
      }
    }
  }

  /** `parts.join(sep)`: an empty array gives the empty string. */
  function Join(parts: seq<string>, sep: string): string
  {
    if |parts| == 0 then ""
    else if |parts| == 1 then parts[0]
    else parts[0] + sep + Join(parts[1..], sep)
  }

  /** `s.startsWith(prefix)`. */
  predicate StartsWith(s: string, prefix: string)
  {
    |prefix| <= |s| && s[..|prefix|] == prefix
  }

  /** Every part of a split but the last one: the segments that were
      followed by a separator. */
  function AllButLast(parts: seq<string>): seq<string>
    requires |parts| >= 1
  {
    parts[..|parts| - 1]
  }

  function Last(parts: seq<string>): string
    requires |parts| >= 1
  {
    parts[|parts| - 1]
  }

  /** The characters `String.prototype.trim` removes: ECMAScript WhiteSpace
      (tab, vertical tab, form feed, space, no-break space, byte order mark and
      the Unicode space separators) and LineTerminator (LF, CR, LS, PS). */
  predicate IsJsWhitespace(c: char)
  {
    c == '\t' || c == '\n' || c == '\U{B}' || c == '\U{C}' || c == '\r' ||
    c == ' ' || c == '\U{A0}' || c == '\U{1680}' ||
    ('\U{2000}' <= c <= '\U{200A}') ||
    c == '\U{2028}' || c == '\U{2029}' || c == '\U{202F}' || c == '\U{205F}' ||
    c == '\U{3000}' || c == '\U{FEFF}'
  }

  /** Every character of `s` is whitespace (vacuously so for ""). */
  predicate IsBlank(s: string)
  {
    forall i :: 0 <= i < |s| ==> IsJsWhitespace(s[i])
  }

  function TrimStart(s: string): string
  {
    if s != [] && IsJsWhitespace(s[0]) then TrimStart(s[1..]) else s
  }

  function TrimEnd(s: string): string
  {
    if s != [] && IsJsWhitespace(s[|s| - 1]) then TrimEnd(s[..|s| - 1]) else s
  }

  /** `s.trim()`. */
  function Trim(s: string): string
  {
    TrimEnd(TrimStart(s))
  }

  /** TrimStart removes a blank prefix and stops at the first other character. */
  lemma {:induction false} TrimStartRemovesBlankPrefix(s: string)
    ensures var t := TrimStart(s);
      |t| <= |s| && t == s[|s| - |t|..] && IsBlank(s[..|s| - |t|]) &&
      (t != [] ==> !IsJsWhitespace(t[0]))
  {
    if s != [] && IsJsWhitespace(s[0]) {
      TrimStartRemovesBlankPrefix(s[1..]);
      var t := TrimStart(s[1..]);
      assert s[1..][|s| - 1 - |t|..] == s[|s| - |t|..];
      assert forall i :: 1 <= i < |s| - |t| ==> s[i] == s[1..][..|s| - 1 - |t|][i - 1];
    }
  }

  /** TrimEnd keeps a non-empty text whose first character is not whitespace. */
  lemma {:induction false} TrimEndKeepsNonBlank(t: string)
    requires t != [] && !IsJsWhitespace(t[0])
    ensures TrimEnd(t) != []
  {
    if IsJsWhitespace(t[|t| - 1]) {
      TrimEndKeepsNonBlank(t[..|t| - 1]);
    }
  }

  /** `!s.trim()` holds exactly for strings made of whitespace only. */
  lemma TrimEmptyIffBlank(s: string)
    ensures Trim(s) == "" <==> IsBlank(s)
  {
    TrimStartRemovesBlankPrefix(s);
    var t := TrimStart(s);
    if t == [] {
      assert s[..|s| - |t|] == s;
    } else {
      assert s[|s| - |t|] == t[0];
      TrimEndKeepsNonBlank(t);
    }
  }

  /** A separator-free string is its own single part. */
  lemma {:induction false} SplitNoSeparator(s: string, sep: char)
    requires sep !in s
    ensures Split(s, sep) == [s]
  {
    if s != [] {
      SplitNoSeparator(s[1..], sep);
      assert [s[0]] + s[1..] == s;
    }
  }

  /** Splitting one character in front of a text. */
  lemma SplitCons(c: char, t: string, sep: char)
    ensures c == sep ==> Split([c] + t, sep) == [""] + Split(t, sep)
    ensures c != sep ==> Split([c] + t, sep) == [[c] + Split(t, sep)[0]] + Split(t, sep)[1..]
  {
    assert ([c] + t)[0] == c;
    assert ([c] + t)[1..] == t;
  }

  /** A separator cuts the text in two independent halves. */
  lemma {:induction false} SplitAtSeparator(x: string, sep: char, y: string)
    ensures Split(x + [sep] + y, sep) == Split(x, sep) + Split(y, sep)
  {
    if x == [] {
      assert x + [sep] + y == [sep] + y;
      assert ([sep] + y)[1..] == y;
    } else {
      var s := x + [sep] + y;
      assert s[0] == x[0];
      assert s[1..] == x[1..] + [sep] + y;
      SplitAtSeparator(x[1..], sep, y);
    }
  }

  /** Appending text `b` to `a` leaves every separator-terminated part of `a`
      in place; only the trailing unterminated part of `a` is continued by `b`.
      This is what makes line reassembly independent of where chunks are cut. */
  lemma {:induction false} SplitAppend(a: string, b: string, sep: char)
    ensures Split(a + b, sep) == AllButLast(Split(a, sep)) + Split(Last(Split(a, sep)) + b, sep)
  {
    if a == [] {
      assert a + b == b;
    } else {
      SplitAppend(a[1..], b, sep);
      SplitAppendStep(a, b, sep);
    }
  }

  /** The inductive step of SplitAppend: one more character in front. */
  lemma SplitAppendStep(a: string, b: string, sep: char)
    requires a != []
    requires Split(a[1..] + b, sep) == AllButLast(Split(a[1..], sep)) + Split(Last(Split(a[1..], sep)) + b, sep)
    ensures Split(a + b, sep) == AllButLast(Split(a, sep)) + Split(Last(Split(a, sep)) + b, sep)
  {
    assert (a + b)[0] == a[0];
    assert (a + b)[1..] == a[1..] + b;
    if a[0] == sep {
      StepSep(a, b, sep);
    } else if |Split(a[1..], sep)| == 1 {
      StepSingle(a, b, sep);
    } else {
      StepMany(a, b, sep);
    }
  }

  /** The step when the first character is the separator. */
  lemma StepSep(a: string, b: string, sep: char)
    requires a != [] && a[0] == sep && (a + b)[1..] == a[1..] + b
    requires Split(a[1..] + b, sep) == AllButLast(Split(a[1..], sep)) + Split(Last(Split(a[1..], sep)) + b, sep)
    ensures Split(a + b, sep) == AllButLast(Split(a, sep)) + Split(Last(Split(a, sep)) + b, sep)
  {
    var p := Split(a[1..], sep);
    assert Split(a, sep) == [""] + p;
    assert Split(a + b, sep) == [""] + Split(a[1..] + b, sep);
    PrependEmptyPart(p, Split(a[1..] + b, sep), Split(Last(p) + b, sep));
  }

  /** The step when the first character is not the separator and the rest
      has no separator. */
  lemma StepSingle(a: string, b: string, sep: char)
    requires a != [] && a[0] != sep && (a + b)[1..] == a[1..] + b
    requires |Split(a[1..], sep)| == 1
    requires Split(a[1..] + b, sep) == AllButLast(Split(a[1..], sep)) + Split(Last(Split(a[1..], sep)) + b, sep)
    ensures Split(a + b, sep) == AllButLast(Split(a, sep)) + Split(Last(Split(a, sep)) + b, sep)
  {
    var c := a[0];
    var p := Split(a[1..], sep);
    var r := Split(a[1..] + b, sep);
    assert r == Split(Last(p) + b, sep);
    assert Split(a, sep) == [[c] + p[0]];
    assert Split(a + b, sep) == [[c] + r[0]] + r[1..];
    assert Last(Split(a, sep)) + b == [c] + (Last(p) + b);
    SplitCons(c, Last(p) + b, sep);
  }

  /** The step when the first character is not the separator and the rest
      has a separator. */
  lemma StepMany(a: string, b: string, sep: char)
    requires a != [] && a[0] != sep && (a + b)[1..] == a[1..] + b
    requires |Split(a[1..], sep)| >= 2
    requires Split(a[1..] + b, sep) == AllButLast(Split(a[1..], sep)) + Split(Last(Split(a[1..], sep)) + b, sep)
    ensures Split(a + b, sep) == AllButLast(Split(a, sep)) + Split(Last(Split(a, sep)) + b, sep)
  {
    var c := a[0];
    var p := Split(a[1..], sep);
    var r := Split(a[1..] + b, sep);
    assert Split(a, sep) == [[c] + p[0]] + p[1..];
    assert Split(a + b, sep) == [[c] + r[0]] + r[1..];
    ExtendFirstPart(c, p, r, Split(Last(p) + b, sep));
  }

  /** A separator in front adds an empty first part and keeps the last one. */
  lemma PrependEmptyPart(p: seq<string>, r: seq<string>, tail: seq<string>)
    requires |p| >= 1
    requires r == AllButLast(p) + tail
    ensures [""] + r == AllButLast([""] + p) + tail
    ensures Last([""] + p) == Last(p)
  {
    assert AllButLast([""] + p) == [""] + AllButLast(p);
  }

  /** A character in front of a text of several parts extends the first part
      only. */
  lemma ExtendFirstPart(c: char, p: seq<string>, r: seq<string>, tail: seq<string>)
    requires |p| >= 2
    requires r == AllButLast(p) + tail
    ensures [[c] + r[0]] + r[1..] == AllButLast([[c] + p[0]] + p[1..]) + tail
    ensures Last([[c] + p[0]] + p[1..]) == Last(p)
  {
    assert r[0] == p[0];
    assert r[1..] == p[1..|p| - 1] + tail;
    assert AllButLast([[c] + p[0]] + p[1..]) == [[c] + p[0]] + p[1..|p| - 1];
  }

  /** Joining the parts of a split with the separator gives back the text. */
  lemma {:induction false} JoinSplit(s: string, sep: char)
    ensures Join(Split(s, sep), [sep]) == s
  {
    if s != [] {
      var rest := Split(s[1..], sep);
      JoinSplit(s[1..], sep);
      if s[0] == sep {
        assert Join([""] + rest, [sep]) == "" + [sep] + Join(rest, [sep]);
        assert [s[0]] + s[1..] == s;
      } else {
        JoinConsChar(s[0], rest[0], rest[1..], [sep]);
        assert [rest[0]] + rest[1..] == rest;
        assert [s[0]] + s[1..] == s;
      }
    }
  }

  lemma JoinConsChar(c: char, p: string, ps: seq<string>, sep: string)
    ensures Join([[c] + p] + ps, sep) == [c] + Join([p] + ps, sep)
  {
    if |ps| > 0 {
      assert ([[c] + p] + ps)[1..] == ps;
      assert ([p] + ps)[1..] == ps;
    }
  }

  /** Splitting a join of separator-free parts gives back the parts. */
  lemma {:induction false} SplitJoin(parts: seq<string>, sep: char)
    requires |parts| >= 1
    requires forall i :: 0 <= i < |parts| ==> sep !in parts[i]
    ensures Split(Join(parts, [sep]), sep) == parts
  {
    if |parts| == 1 {
      SplitNoSeparator(parts[0], sep);
    } else {
      SplitJoin(parts[1..], sep);
      SplitNoSeparator(parts[0], sep);
      SplitAtSeparator(parts[0], sep, Join(parts[1..], [sep]));
      assert parts[0] + [sep] + Join(parts[1..], [sep]) == Join(parts, [sep]);
      assert [parts[0]] + parts[1..] == parts;
    }
  }
}
