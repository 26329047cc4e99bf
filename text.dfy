/**
 * The JavaScript string operations the application relies on: case mapping,
 * `startsWith` / `endsWith` / `includes`, `split(' ')`, `trim()`, the decimal
 * rendering of numbers in template strings, and the default `Array.prototype.sort`
 * order on strings.
 *
 * Case mapping is ASCII only. For the comparisons made in this application
 * ('easy', 'medium', 'hard', 'solved', asset extensions) that is exact: no
 * non-ASCII character lower-cases to one of their letters.
 */
module Text {

  function LowerChar(c: char): char
  {
    if 'A' <= c <= 'Z' then (c as int + 32) as char else c
  }

  function UpperChar(c: char): char
  {
    if 'a' <= c <= 'z' then (c as int - 32) as char else c
  }

  /** `s.toLowerCase()`. */
  function Lower(s: string): string
  {
    seq(|s|, i requires 0 <= i < |s| => LowerChar(s[i]))
  }

  /** `s.toUpperCase()`. */
  function Upper(s: string): string
  {
    seq(|s|, i requires 0 <= i < |s| => UpperChar(s[i]))
  }

  predicate StartsWith(s: string, prefix: string)
  {
    |prefix| <= |s| && s[..|prefix|] == prefix
  }

  predicate EndsWith(s: string, suffix: string)
  {
    |suffix| <= |s| && s[|s| - |suffix|..] == suffix
  }

  /** `s.includes(part)`: `part` occurs at some position of `s` (the empty string occurs everywhere). */
  predicate Contains(s: string, part: string)
  {
    exists i :: 0 <= i <= |s| && StartsWith(s[i..], part)
  }

  /** Lower-casing twice is lower-casing once. */
  lemma LowerIdempotent(s: string)
    ensures Lower(Lower(s)) == Lower(s)
  {
  }

  // ---------------------------------------------------------------------------
  // split(' ')

  /** `s.split(sep)`: the pieces between separators, empty pieces included. */
  function Split(s: string, sep: char): (pieces: seq<string>)
    ensures |pieces| >= 1
    decreases |s|
  {
    if |s| == 0 then [""]
    else if s[0] == sep then [""] + Split(s[1..], sep)
    else
      var rest := Split(s[1..], sep);
      [[s[0]] + rest[0]] + rest[1..]
  }

  /** `pieces.join(sep)`. */
  function Join(pieces: seq<string>, sep: char): string
    requires |pieces| >= 1
    decreases |pieces|
  {
    if |pieces| == 1 then pieces[0] else pieces[0] + [sep] + Join(pieces[1..], sep)
  }

  /** Splitting loses nothing: the pieces contain no separator and join back to the string. */
  lemma SplitJoin(s: string, sep: char)
    ensures Join(Split(s, sep), sep) == s
    ensures forall k :: 0 <= k < |Split(s, sep)| ==> sep !in Split(s, sep)[k]
  {
    SplitRejoins(s, sep);
    SplitPiecesFree(s, sep);
  }

  lemma {:induction false} SplitRejoins(s: string, sep: char)
    ensures Join(Split(s, sep), sep) == s
    decreases |s|
  {
    if |s| > 0 {
      SplitRejoins(s[1..], sep);
      if s[0] == sep {
        assert s == [sep] + s[1..];
      } else {
        var rest := Split(s[1..], sep);
        if |rest| == 1 {
          assert s == [s[0]] + s[1..];
        } else {
          assert Join(rest, sep) == rest[0] + [sep] + Join(rest[1..], sep);
          assert s == [s[0]] + s[1..];
        }
      }
    }
  }

  lemma {:induction false} SplitPiecesFree(s: string, sep: char)
    ensures forall k :: 0 <= k < |Split(s, sep)| ==> sep !in Split(s, sep)[k]
    decreases |s|
  {
    if |s| > 0 {
      SplitPiecesFree(s[1..], sep);
      var rest := Split(s[1..], sep);
      var pieces := Split(s, sep);
      forall k | 0 <= k < |pieces|
        ensures sep !in pieces[k]
      {
        if s[0] == sep {
          if k > 0 {
            assert pieces[k] == rest[k - 1];
          }
        } else if k > 0 {
          assert pieces[k] == rest[k];
        } else {
          assert pieces[0] == [s[0]] + rest[0];
        }
      }
    }
  }

  /** There is one piece exactly when the separator does not occur; then that piece is the string. */
  lemma {:induction false} SplitSingle(s: string, sep: char)
    ensures |Split(s, sep)| == 1 <==> sep !in s
    ensures sep !in s ==> Split(s, sep) == [s]
    decreases |s|
  {
    if |s| > 0 {
      SplitSingle(s[1..], sep);
      assert s == [s[0]] + s[1..];
    }
  }

  /** The first piece is empty exactly when the string is empty or starts with the separator; otherwise it starts with the string's first character. */
  lemma SplitFirst(s: string, sep: char)
    ensures Split(s, sep)[0] == "" <==> (|s| == 0 || s[0] == sep)
    ensures |s| > 0 && s[0] != sep ==> Split(s, sep)[0][0] == s[0]
  {
  }

  /** The last piece is a suffix of the string that follows the last separator. */
  lemma {:induction false} SplitLast(s: string, sep: char)
    ensures var pieces := Split(s, sep); var last := pieces[|pieces| - 1];
      && |last| <= |s| && last == s[|s| - |last|..]
      && (|pieces| == 1 ==> last == s)
      && (|pieces| > 1 ==> |last| < |s| && s[|s| - |last| - 1] == sep)
    decreases |s|
  {
    if |s| > 0 {
      var rest := Split(s[1..], sep);
      SplitLast(s[1..], sep);
      if s[0] != sep && |rest| == 1 {
        assert s == [s[0]] + s[1..];
      }
    }
  }

  /** The last piece is empty exactly when the string is empty or ends with the separator. */
  lemma SplitLastEmpty(s: string, sep: char)
    ensures var pieces := Split(s, sep);
      pieces[|pieces| - 1] == "" <==> (|s| == 0 || s[|s| - 1] == sep)
  {
    SplitLast(s, sep);
    SplitJoin(s, sep);
    SplitSingle(s, sep);
    var pieces := Split(s, sep);
    assert sep !in pieces[|pieces| - 1];
  }

  /** A separator at the end adds one empty last piece. */
  lemma {:induction false} SplitTrailingSeparator(s: string, sep: char)
    ensures Split(s + [sep], sep) == Split(s, sep) + [""]
    decreases |s|
  {
    if |s| > 0 {
      SplitTrailingSeparator(s[1..], sep);
      assert (s + [sep])[1..] == s[1..] + [sep];
    }
  }

  // ---------------------------------------------------------------------------
  // trim()

  /** The characters `String.prototype.trim` removes: white space and line terminators. */
  predicate IsJsSpace(c: char)
  {
    c == '\t' || c == '\n' || c == '\U{000B}' || c == '\U{000C}' || c == '\r' || c == ' '
    || c == '\U{00A0}' || c == '\U{1680}' || ('\U{2000}' <= c <= '\U{200A}')
    || c == '\U{2028}' || c == '\U{2029}' || c == '\U{202F}' || c == '\U{205F}'
    || c == '\U{3000}' || c == '\U{FEFF}'
  }

  function TrimStart(s: string): string
    decreases |s|
  {
    if |s| > 0 && IsJsSpace(s[0]) then TrimStart(s[1..]) else s
  }

  function TrimEnd(s: string): string
    decreases |s|
  {
    if |s| > 0 && IsJsSpace(s[|s| - 1]) then TrimEnd(s[..|s| - 1]) else s
  }

  /** `s.trim()`. */
  function Trim(s: string): string
  {
    TrimEnd(TrimStart(s))
  }

  predicate IsBlank(s: string)
  {
    forall i :: 0 <= i < |s| ==> IsJsSpace(s[i])
  }

  lemma {:induction false} TrimStartBlank(s: string)
    ensures TrimStart(s) == "" <==> IsBlank(s)
    decreases |s|
  {
    if |s| > 0 && IsJsSpace(s[0]) {
      TrimStartBlank(s[1..]);
      assert IsBlank(s) <==> IsBlank(s[1..]) by {
        if IsBlank(s[1..]) {
          forall i | 0 <= i < |s| ensures IsJsSpace(s[i]) {
            if i > 0 { assert s[i] == s[1..][i - 1]; }
          }
        }
      }
    }
  }

  lemma {:induction false} TrimEndEmpty(s: string)
    ensures TrimEnd(s) == "" <==> IsBlank(s)
    decreases |s|
  {
    if |s| > 0 && IsJsSpace(s[|s| - 1]) {
      TrimEndEmpty(s[..|s| - 1]);
      assert IsBlank(s) <==> IsBlank(s[..|s| - 1]) by {
        if IsBlank(s[..|s| - 1]) {
          forall i | 0 <= i < |s| ensures IsJsSpace(s[i]) {
            if i < |s| - 1 { assert s[i] == s[..|s| - 1][i]; }
          }
        }
      }
    }
  }

  /** `code.trim() === ''` holds exactly when every character of `code` is white space. */
  lemma TrimEmptyIffBlank(s: string)
    ensures Trim(s) == "" <==> IsBlank(s)
  {
    var t := TrimStart(s);
    TrimEndEmpty(t);
    TrimStartBlank(s);
    TrimStartFixed(s);
  }

  /** Trimming the front twice changes nothing more. */
  lemma {:induction false} TrimStartFixed(s: string)
    ensures TrimStart(s) == "" || !IsJsSpace(TrimStart(s)[0])
    decreases |s|
  {
    if |s| > 0 && IsJsSpace(s[0]) {
      TrimStartFixed(s[1..]);
    }
  }

  // ---------------------------------------------------------------------------
  // Numbers in template strings

  function DigitChar(d: nat): char
    requires d < 10
  {
    "0123456789"[d]
  }

  /** `${n}` for a non-negative integer. */
  function NatToString(n: nat): (r: string)
    ensures |r| >= 1
    ensures forall i :: 0 <= i < |r| ==> '0' <= r[i] <= '9'
  {
    if n < 10 then [DigitChar(n)] else NatToString(n / 10) + [DigitChar(n % 10)]
  }

  // ---------------------------------------------------------------------------
  // Default sort order

  /** `a < b` in the order `Array.prototype.sort()` uses without a comparator: character by character, a proper prefix first (characters are compared as scalar values, which agrees with JavaScript's code-unit order inside the Basic Multilingual Plane). */
  predicate Less(a: string, b: string)
    decreases |a|
  {
    |b| > 0 && (|a| == 0 || a[0] < b[0] || (a[0] == b[0] && Less(a[1..], b[1..])))
  }

  lemma {:induction false} LessIrreflexive(a: string)
    ensures !Less(a, a)
    decreases |a|
  {
    if |a| > 0 {
      LessIrreflexive(a[1..]);
    }
  }

  lemma {:induction false} LessTransitive(a: string, b: string, c: string)
    requires Less(a, b) && Less(b, c)
    ensures Less(a, c)
    decreases |a|
  {
    if |a| > 0 && a[0] == b[0] && b[0] == c[0] {
      LessTransitive(a[1..], b[1..], c[1..]);
    }
  }

  lemma {:induction false} LessTotal(a: string, b: string)
    ensures a == b || Less(a, b) || Less(b, a)
    decreases |a|
  {
    if |a| > 0 && |b| > 0 && a[0] == b[0] {
      LessTotal(a[1..], b[1..]);
      if a[1..] == b[1..] {
        assert a == [a[0]] + a[1..] && b == [b[0]] + b[1..];
      }
    }
  }

  predicate StrictlySorted(s: seq<string>)
  {
    forall i, j :: 0 <= i < j < |s| ==> Less(s[i], s[j])
  }

  /** The least element of a non-empty set of strings. */
  method Least(s: set<string>) returns (m: string)
    requires s != {}
    ensures m in s
    ensures forall x :: x in s && x != m ==> Less(m, x)
  {
    m :| m in s;
    var rest := s - {m};
    while rest != {}
      invariant rest <= s && m in s && m !in rest
      invariant forall x :: x in s && x !in rest && x != m ==> Less(m, x)
      decreases |rest|
    {
      var x :| x in rest;
      LessTotal(x, m);
      if Less(x, m) {
        forall y | y in s && y !in rest && y != x
          ensures Less(x, y)
        {
          if y != m {
            LessTransitive(x, m, y);
          }
        }
        m := x;
      }
      rest := rest - {x};
    }
  }

  /** `Array.from(s).sort()`: the elements of the set in ascending order, each once. */
  method SortSet(s: set<string>) returns (r: seq<string>)
    ensures StrictlySorted(r)
    ensures |r| == |s|
    ensures forall x :: x in r <==> x in s
  {
    r := [];
    var rest := s;
    while rest != {}
      invariant rest <= s
      invariant forall x :: x in r <==> x in s && x !in rest
      invariant StrictlySorted(r)
      invariant forall i, y :: 0 <= i < |r| && y in rest ==> Less(r[i], y)
      invariant |r| + |rest| == |s|
      decreases |rest|
    {
      var m := Least(rest);
      r := r + [m];
      rest := rest - {m};
    }
  }
}
