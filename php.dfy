/**
 * The PHP runtime behaviour the generators and the response trait rely on:
 * scalar option values and their truthiness, and the string builtins
 * `trim`, `ltrim`, `rtrim`, `str_replace`, `explode`, `implode`, `str_repeat`,
 * `str_pad`, `ucfirst` and `strtolower`.
 * A PHP string is a byte string; here one `char` stands for one byte.
 */
module Php {

  /** A value read from the command line: `CLI::getOption` gives a string,
      `true` for a bare flag, or `null`; a params array holds strings or `null`. */
  datatype Value = Null | True | Str(s: string)

  /** PHP's conversion to bool: `null`, `""` and `"0"` are false. */
  predicate Truthy(v: Value)
  {
    match v
    case Null => false
    case True => true
    case Str(s) => s != "" && s != "0"
  }

  /** PHP's conversion to string: `null` is `""`, `true` is `"1"`. */
  function AsString(v: Value): string
  {
    match v
    case Null => ""
    case True => "1"
    case Str(s) => s
  }

  /** The default character list of `trim`: " \t\n\r\0\x0B". */
  const Whitespace: set<char> := {' ', '\t', '\n', '\r', '\0', '\U{B}'}

  predicate StartsWith(s: string, prefix: string)
  {
    |prefix| <= |s| && s[..|prefix|] == prefix
  }

  predicate EndsWith(s: string, suffix: string)
  {
    |suffix| <= |s| && s[|s| - |suffix|..] == suffix
  }

  /** `ltrim($s, $chars)` */
  function TrimLeft(s: string, cs: set<char>): (r: string)
    ensures |r| <= |s| && r == s[|s| - |r|..]
    ensures r == [] || r[0] !in cs
    ensures forall i :: 0 <= i < |s| - |r| ==> s[i] in cs
    decreases |s|
  {
    if |s| > 0 && s[0] in cs then TrimLeft(s[1..], cs) else s
  }

  /** `rtrim($s, $chars)` */
  function TrimRight(s: string, cs: set<char>): (r: string)
    ensures |r| <= |s| && r == s[..|r|]
    ensures r == [] || r[|r| - 1] !in cs
    ensures forall i :: |r| <= i < |s| ==> s[i] in cs
    decreases |s|
  {
    if |s| > 0 && s[|s| - 1] in cs then TrimRight(s[..|s| - 1], cs) else s
  }

  /** `trim($s, $chars)` */
  function Trim(s: string, cs: set<char>): (r: string)
    ensures r == [] || (r[0] !in cs && r[|r| - 1] !in cs)
  {
    TrimRight(TrimLeft(s, cs), cs)
  }

  /** A string whose ends are not in `cs` is left alone by `trim`. */
  lemma TrimKeeps(s: string, cs: set<char>)
    requires s == [] || (s[0] !in cs && s[|s| - 1] !in cs)
    ensures Trim(s, cs) == s
  {
  }

  /** `str_replace($search, $rep, $s)` for one search string: occurrences are
      replaced left to right without overlapping; an empty search changes nothing. */
  function StrReplace(s: string, search: string, rep: string): string
    decreases |s|
  {
    if |search| == 0 || |s| == 0 then s
    else if StartsWith(s, search) then rep + StrReplace(s[|search|..], search, rep)
    else [s[0]] + StrReplace(s[1..], search, rep)
  }

  /** `str_replace($search, $replace, $s)` with arrays: each search string in turn,
      over the whole result of the previous ones; a missing replacement is "". */
  function StrReplaceEach(s: string, search: seq<string>, replace: seq<string>): string
    decreases |search|
  {
    if |search| == 0 then s
    else
      var rep := if |replace| > 0 then replace[0] else "";
      StrReplaceEach(StrReplace(s, search[0], rep), search[1..], if |replace| > 0 then replace[1..] else [])
  }

  /** Replacing with two lists in turn is replacing with the lists joined, once
      the first list has a replacement for each of its search strings. */
  lemma {:induction false} StrReplaceEachAppend(s: string, s1: seq<string>, r1: seq<string>, s2: seq<string>, r2: seq<string>)
    requires |r1| == |s1|
    ensures StrReplaceEach(s, s1 + s2, r1 + r2) == StrReplaceEach(StrReplaceEach(s, s1, r1), s2, r2)
    decreases |s1|
  {
    if |s1| > 0 {
      assert (s1 + s2)[0] == s1[0] && (r1 + r2)[0] == r1[0];
      assert (s1 + s2)[1..] == s1[1..] + s2 && (r1 + r2)[1..] == r1[1..] + r2;
      StrReplaceEachAppend(StrReplace(s, s1[0], r1[0]), s1[1..], r1[1..], s2, r2);
    } else {
      assert s1 + s2 == s2 && r1 + r2 == r2;
    }
  }

  predicate OccursAt(s: string, x: string, j: int)
  {
    0 <= j && j + |x| <= |s| && s[j..j + |x|] == x
  }

  lemma {:induction false} StrReplaceAbsent(s: string, x: string, y: string)
    requires forall j :: 0 <= j < |s| ==> !OccursAt(s, x, j)
    ensures StrReplace(s, x, y) == s
    decreases |s|
  {
    if |x| > 0 && |s| > 0 {
      assert !OccursAt(s, x, 0);
      forall j | 0 <= j < |s| - 1 ensures !OccursAt(s[1..], x, j) {
        assert !OccursAt(s, x, j + 1);
        if j + |x| <= |s| - 1 {
          assert s[1..][j..j + |x|] == s[j + 1..j + 1 + |x|];
        }
      }
      StrReplaceAbsent(s[1..], x, y);
    }
  }

  /** Text in front of the first occurrence is copied unchanged. */
  lemma {:induction false} StrReplaceSkips(a: string, rest: string, x: string, y: string)
    requires forall j :: 0 <= j < |a| ==> !OccursAt(a + rest, x, j)
    ensures StrReplace(a + rest, x, y) == a + StrReplace(rest, x, y)
    decreases |a|
  {
    if |a| > 0 && |x| > 0 {
      var s := a + rest;
      assert !OccursAt(s, x, 0);
      assert !StartsWith(s, x);
      assert s[1..] == a[1..] + rest;
      forall j | 0 <= j < |a| - 1 ensures !OccursAt(a[1..] + rest, x, j) {
        assert !OccursAt(s, x, j + 1);
        if j + |x| <= |s| - 1 {
          assert s[1..][j..j + |x|] == s[j + 1..j + 1 + |x|];
        }
      }
      StrReplaceSkips(a[1..], rest, x, y);
    } else if |x| == 0 {
    } else {
      assert a + rest == rest;
    }
  }

  /** An occurrence in a suffix is an occurrence in the whole string. */
  lemma OccursInSuffix(s: string, x: string, d: nat, j: nat)
    requires d <= |s| && OccursAt(s[d..], x, j)
    ensures OccursAt(s, x, d + j)
  {
    assert s[d..][j..j + |x|] == s[d + j..d + j + |x|];
  }

  /** When `x` occurs only at `k`, `str_replace` changes that occurrence and nothing else. */
  lemma {:induction false} StrReplaceSole(s: string, x: string, y: string, k: nat)
    requires |x| > 0 && OccursAt(s, x, k)
    requires forall j :: 0 <= j < |s| && j != k ==> !OccursAt(s, x, j)
    ensures StrReplace(s, x, y) == s[..k] + y + s[k + |x|..]
  {
    var rest := s[k..];
    assert s == s[..k] + rest;
    StrReplaceSkips(s[..k], rest, x, y);
    assert StartsWith(rest, x);
    var tail := s[k + |x|..];
    assert rest[|x|..] == tail;
    assert StrReplace(rest, x, y) == y + StrReplace(tail, x, y);
    forall j | 0 <= j < |tail| ensures !OccursAt(tail, x, j) {
      if OccursAt(tail, x, j) {
        OccursInSuffix(s, x, k + |x|, j);
      }
    }
    StrReplaceAbsent(tail, x, y);
  }

  /** `str_replace` of one character by another. */
  function ReplaceChar(s: string, a: char, b: char): (r: string)
    ensures |r| == |s|
    ensures a != b ==> a !in r
    decreases |s|
  {
    if |s| == 0 then "" else [if s[0] == a then b else s[0]] + ReplaceChar(s[1..], a, b)
  }

  /** Replacing a one-character string is replacing that character. */
  lemma {:induction false} ReplaceCharIsStrReplace(s: string, a: char, b: char)
    ensures StrReplace(s, [a], [b]) == ReplaceChar(s, a, b)
    decreases |s|
  {
    if |s| > 0 {
      ReplaceCharIsStrReplace(s[1..], a, b);
      if s[0] == a {
        assert StartsWith(s, [a]);
        assert s[|[a]|..] == s[1..];
      }
    }
  }

  lemma {:induction false} ReplaceCharAppend(x: string, y: string, a: char, b: char)
    ensures ReplaceChar(x + y, a, b) == ReplaceChar(x, a, b) + ReplaceChar(y, a, b)
    decreases |x|
  {
    if |x| > 0 {
      assert (x + y)[1..] == x[1..] + y;
      ReplaceCharAppend(x[1..], y, a, b);
    } else {
      assert x + y == y;
    }
  }

  /** `explode($sep, $s)` */
  function Split(s: string, sep: char): (parts: seq<string>)
    ensures |parts| >= 1
    ensures forall k :: 0 <= k < |parts| ==> sep !in parts[k]
    decreases |s|
  {
    if |s| == 0 then [""]
    else
      var rest := Split(s[1..], sep);
      if s[0] == sep then [""] + rest
      else [[s[0]] + rest[0]] + rest[1..]
  }

  /** `implode($sep, $parts)` */
  function Join(sep: char, parts: seq<string>): string
    decreases |parts|
  {
    if |parts| == 0 then ""
    else if |parts| == 1 then parts[0]
    else parts[0] + [sep] + Join(sep, parts[1..])
  }

  lemma JoinHead(sep: char, c: char, parts: seq<string>)
    requires |parts| >= 1
    ensures Join(sep, [[c] + parts[0]] + parts[1..]) == [c] + Join(sep, parts)
  {
    var ps := [[c] + parts[0]] + parts[1..];
    if |parts| > 1 {
      assert ps[1..] == parts[1..];
    }
  }

  /** `implode` undoes `explode`. */
  lemma {:induction false} JoinSplit(s: string, sep: char)
    ensures Join(sep, Split(s, sep)) == s
    decreases |s|
  {
    if |s| > 0 {
      JoinSplit(s[1..], sep);
      var rest := Split(s[1..], sep);
      if s[0] == sep {
        assert ([""] + rest)[1..] == rest;
      } else {
        JoinHead(sep, s[0], rest);
      }
    }
  }

  /** A string without the separator explodes to itself alone. */
  lemma {:induction false} SplitWithout(s: string, sep: char)
    requires sep !in s
    ensures Split(s, sep) == [s]
    decreases |s|
  {
    if |s| > 0 {
      SplitWithout(s[1..], sep);
      assert s == [s[0]] + s[1..];
    }
  }

  /** Exploding at a separator splits the parts of each side. */
  lemma {:induction false} SplitAt(a: string, b: string, sep: char)
    ensures Split(a + [sep] + b, sep) == Split(a, sep) + Split(b, sep)
    decreases |a|
  {
    var s := a + [sep] + b;
    if |a| == 0 {
      assert s[1..] == b;
    } else {
      assert s[1..] == a[1..] + [sep] + b;
      SplitAt(a[1..], b, sep);
    }
  }

  /** Exploding the implosion of parts free of the separator gives the parts back. */
  lemma {:induction false} SplitJoin(sep: char, parts: seq<string>)
    requires |parts| >= 1
    requires forall k :: 0 <= k < |parts| ==> sep !in parts[k]
    ensures Split(Join(sep, parts), sep) == parts
    decreases |parts|
  {
    if |parts| == 1 {
      SplitWithout(parts[0], sep);
    } else {
      SplitJoin(sep, parts[1..]);
      SplitWithout(parts[0], sep);
      SplitAt(parts[0], Join(sep, parts[1..]), sep);
    }
  }

  /** A character missing from a string is missing from each exploded part. */
  lemma {:induction false} SplitPartsWithout(s: string, sep: char, c: char)
    requires c !in s
    ensures forall k :: 0 <= k < |Split(s, sep)| ==> c !in Split(s, sep)[k]
    decreases |s|
  {
    if |s| > 0 {
      SplitPartsWithout(s[1..], sep, c);
    }
  }

  /** Dropping the last exploded part and imploding again gives the text before the last separator. */
  lemma {:induction false} JoinAllButLast(sep: char, parts: seq<string>)
    requires |parts| >= 2
    ensures Join(sep, parts[..|parts| - 1]) + [sep] + parts[|parts| - 1] == Join(sep, parts)
    decreases |parts|
  {
    var init := parts[..|parts| - 1];
    var last := parts[|parts| - 1];
    var rest := parts[1..];
    assert Join(sep, parts) == parts[0] + [sep] + Join(sep, rest);
    if |parts| == 2 {
      assert init == [parts[0]];
      assert rest == [last];
    } else {
      assert init[1..] == rest[..|rest| - 1];
      assert Join(sep, init) == parts[0] + [sep] + Join(sep, rest[..|rest| - 1]);
      JoinAllButLast(sep, rest);
      assert rest[|rest| - 1] == last;
    }
  }

  function UpperChar(c: char): char
  {
    if 'a' <= c <= 'z' then (c as int - 32) as char else c
  }

  function LowerChar(c: char): char
  {
    if 'A' <= c <= 'Z' then (c as int + 32) as char else c
  }

  /** `ucfirst($s)` */
  function UcFirst(s: string): (r: string)
    ensures |r| == |s|
    ensures |s| > 0 ==> r[0] == UpperChar(s[0]) && r[1..] == s[1..]
  {
    if |s| == 0 then s else [UpperChar(s[0])] + s[1..]
  }

  /** `strtolower($s)` (ASCII letters only, as PHP 8 does) */
  function ToLower(s: string): (r: string)
    ensures |r| == |s|
    ensures forall i :: 0 <= i < |s| ==> r[i] == LowerChar(s[i])
    decreases |s|
  {
    if |s| == 0 then s else [LowerChar(s[0])] + ToLower(s[1..])
  }

  /** Equality under ASCII case folding, as a `/i` regular expression compares. */
  predicate EqualsIgnoreCase(a: string, b: string)
  {
    |a| == |b| && forall i :: 0 <= i < |a| ==> LowerChar(a[i]) == LowerChar(b[i])
  }

  lemma UcFirstSameLetters(s: string)
    ensures EqualsIgnoreCase(UcFirst(s), s)
    ensures UcFirst(UcFirst(s)) == UcFirst(s)
  {
  }

  /** A lower-cased string holds no upper-case letter, so lower-casing again changes nothing. */
  lemma {:induction false} ToLowerIdempotent(s: string)
    ensures ToLower(ToLower(s)) == ToLower(s)
    ensures forall i :: 0 <= i < |s| ==> !('A' <= ToLower(s)[i] <= 'Z')
  {
  }

  /** `str_repeat(' ', $n)` */
  function Spaces(n: nat): (r: string)
    ensures |r| == n && forall i :: 0 <= i < n ==> r[i] == ' '
  {
    seq(n, _ => ' ')
  }

  /** `str_pad($s, $length)`: right-padded with spaces, never truncated. */
  function PadRight(s: string, length: int): (r: string)
    ensures |r| == if length > |s| then length else |s|
    ensures r[..|s|] == s
    ensures forall i :: |s| <= i < |r| ==> r[i] == ' '
  {
    if length > |s| then s + Spaces(length - |s|) else s
  }
}
