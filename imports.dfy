/**
 * Import sorting in `buildContent`: the first run of consecutive `use ...;`
 * lines that the multi-line pattern `(?:^use [^;]+;$\n?)+` finds is trimmed,
 * exploded at newlines, sorted with `sort` and written back with `str_replace`.
 */
module Imports {
  import opened Wrappers
  import opened Php

  predicate LineStart(t: string, i: nat)
  {
    i == 0 || (i <= |t| && t[i - 1] == '\n')
  }

  /** The first `;` at or after `from`. */
  function NextSemicolon(t: string, from: nat): (r: Option<nat>)
    ensures r.Some? ==> from <= r.value < |t| && t[r.value] == ';'
    ensures r.Some? ==> forall j :: from <= j < r.value ==> t[j] != ';'
    ensures r.None? ==> forall j :: from <= j < |t| ==> t[j] != ';'
    decreases |t| - from
  {
    if from >= |t| then None
    else if t[from] == ';' then Some(from)
    else NextSemicolon(t, from + 1)
  }

  /** The `;` at `k` closes an import whose `use ` starts at `i`: at least one
      character lies between, none of them a `;`, and the line ends right after it. */
  predicate ClosesImport(t: string, i: nat, k: nat)
  {
    && i + 4 < k < |t|
    && t[k] == ';'
    && (forall j :: i + 4 <= j < k ==> t[j] != ';')
    && (k + 1 == |t| || t[k + 1] == '\n')
  }

  /** One repetition of `^use [^;]+;$\n?` starting at `i`, and where it ends.
      `[^;]+` runs to the first `;`, which must close its line. */
  function ImportAt(t: string, i: nat): (r: Option<nat>)
    ensures r.Some? ==> i + 6 <= r.value <= |t| && StartsWith(t[i..], "use ")
    ensures r.Some? ==> r.value == |t| || t[r.value - 1] == '\n'
    ensures r.Some? ==> t[r.value - 1] == ';' || (t[r.value - 1] == '\n' && t[r.value - 2] == ';')
  {
    if !(i < |t| && LineStart(t, i) && StartsWith(t[i..], "use ")) then None
    else
      match NextSemicolon(t, i + 4)
      case None => None
      case Some(k) =>
        if k == i + 4 then None
        else if k + 1 == |t| then Some(k + 1)
        else if t[k + 1] == '\n' then Some(k + 2)
        else None
  }

  /** An import starts at `i` exactly when `i` starts a line with `use ` and a
      `;` closes it; the repetition then ends after that `;` and its newline. */
  lemma ImportAtExactly(t: string, i: nat)
    ensures var r := ImportAt(t, i);
            r.Some? ==> LineStart(t, i) && ClosesImport(t, i, if t[r.value - 1] == ';' then r.value - 1 else r.value - 2)
    ensures forall k: nat :: ClosesImport(t, i, k) && LineStart(t, i) && StartsWith(t[i..], "use ") ==>
              ImportAt(t, i) == Some(if k + 1 == |t| then k + 1 else k + 2)
  {
  }

  /** The greedy `+`: the end of the run of imports that starts at `i`. */
  function RunEnd(t: string, i: nat): (e: nat)
    requires i <= |t|
    ensures i <= e <= |t|
    ensures ImportAt(t, i).Some? ==> ImportAt(t, i).value <= e
    ensures ImportAt(t, e).None?
    decreases |t| - i
  {
    match ImportAt(t, i)
    case None => i
    case Some(j) => RunEnd(t, j)
  }

  /** The leftmost match: the first position where an import starts, and the run's end. */
  function FindImports(t: string, from: nat): (r: Option<(nat, nat)>)
    ensures r.Some? ==> from <= r.value.0 && ImportAt(t, r.value.0).Some?
    ensures r.Some? ==> r.value.0 < r.value.1 <= |t| && r.value.1 == RunEnd(t, r.value.0)
    ensures r.Some? ==> forall j :: from <= j < r.value.0 ==> ImportAt(t, j).None?
    ensures r.None? ==> forall j :: from <= j ==> ImportAt(t, j).None?
    decreases |t| - from
  {
    if from >= |t| then None
    else if ImportAt(t, from).Some? then Some((from, RunEnd(t, from)))
    else FindImports(t, from + 1)
  }

  /** `trim($match['imports'])`, when the pattern matches. */
  function ImportRun(t: string): Option<string>
  {
    match FindImports(t, 0)
    case None => None
    case Some((s, e)) => Some(Trim(t[s..e], Whitespace))
  }

  /** The pattern matches exactly when an import starts somewhere, and the
      trimmed run is the text of the template at the run's start. */
  lemma ImportRunInTemplate(t: string)
    ensures ImportRun(t).Some? <==> FindImports(t, 0).Some?
    ensures ImportRun(t).Some? ==>
              && StartsWith(ImportRun(t).value, "use ")
              && OccursAt(t, ImportRun(t).value, FindImports(t, 0).value.0)
  {
    if FindImports(t, 0).Some? {
      var (s, e) := FindImports(t, 0).value;
      var end := ImportAt(t, s).value;
      var k := if t[end - 1] == ';' then end - 1 else end - 2;
      assert t[s..s + 4] == t[s..][..4];
      RunBlock(t, s, e, k);
    }
  }

  /** The trimmed block of an import run starting at `s`, whose first `;` is at
      `k`, sits at `s` in the text. */
  lemma RunBlock(t: string, s: nat, e: nat, k: nat)
    requires s + 4 <= k < e <= |t| && t[k] == ';' && t[s..s + 4] == "use "
    ensures var x := Trim(t[s..e], Whitespace);
            StartsWith(x, "use ") && OccursAt(t, x, s)
  {
    var block := t[s..e];
    assert block[k - s] == t[k];
    assert block[0] == t[s];
    BlockTrim(block, k - s);
    var x := Trim(block, Whitespace);
    assert x[..4] == block[..4] == t[s..s + 4];
    assert t[s..s + |x|] == block[..|x|];
  }

  /** Trimming a block that starts with `u` and holds `;` at `k` keeps a prefix
      through `k`. */
  lemma BlockTrim(block: string, k: nat)
    requires 4 <= k < |block| && block[k] == ';' && block[0] == 'u'
    ensures var x := Trim(block, Whitespace);
            x == block[..|x|] && |x| > k
  {
    assert block[0] !in Whitespace;
    assert TrimLeft(block, Whitespace) == block;
    var x := TrimRight(block, Whitespace);
    assert Trim(block, Whitespace) == x;
    assert block[k] !in Whitespace;
  }

  /** Byte-wise string order, which `sort` uses for these lines (PHP's `strcmp`). */
  predicate LexLe(a: string, b: string)
  {
    |a| == 0 || (|b| > 0 && (a[0] < b[0] || (a[0] == b[0] && LexLe(a[1..], b[1..]))))
  }

  lemma {:induction false} LexLeTotal(a: string, b: string)
    ensures LexLe(a, b) || LexLe(b, a)
  {
    if |a| > 0 && |b| > 0 && a[0] == b[0] {
      LexLeTotal(a[1..], b[1..]);
    }
  }

  lemma {:induction false} LexLeReflexive(a: string)
    ensures LexLe(a, a)
  {
    if |a| > 0 {
      LexLeReflexive(a[1..]);
    }
  }

  lemma {:induction false} LexLeTransitive(a: string, b: string, c: string)
    requires LexLe(a, b) && LexLe(b, c)
    ensures LexLe(a, c)
  {
    if |a| > 0 && a[0] == b[0] && b[0] == c[0] {
      LexLeTransitive(a[1..], b[1..], c[1..]);
    }
  }

  lemma {:induction false} LexLeAntisymmetric(a: string, b: string)
    requires LexLe(a, b) && LexLe(b, a)
    ensures a == b
  {
    if |a| > 0 {
      LexLeAntisymmetric(a[1..], b[1..]);
      assert a == [a[0]] + a[1..] && b == [b[0]] + b[1..];
    }
  }

  predicate Sorted(s: seq<string>)
  {
    forall i, j :: 0 <= i < j < |s| ==> LexLe(s[i], s[j])
  }

  /** `sort($imports)`: an insertion sort in place. */
  method SortLines(a: array<string>)
    modifies a
    ensures Sorted(a[..])
    ensures multiset(a[..]) == old(multiset(a[..]))
  {
    var i := 0;
    while i < a.Length
      invariant 0 <= i <= a.Length
      invariant forall p, q :: 0 <= p < q < i ==> LexLe(a[p], a[q])
      invariant multiset(a[..]) == old(multiset(a[..]))
    {
      var j := i;
      while j > 0 && !LexLe(a[j - 1], a[j])
        invariant 0 <= j <= i
        invariant forall p, q :: 0 <= p < q <= i && q != j ==> LexLe(a[p], a[q])
        invariant forall q :: j < q <= i ==> LexLe(a[j], a[q])
        invariant multiset(a[..]) == old(multiset(a[..]))
      {
        LexLeTotal(a[j - 1], a[j]);
        SwapAdjacent(a, j);
        j := j - 1;
      }
      forall p | 0 <= p < j ensures LexLe(a[p], a[j]) {
        if p < j - 1 {
          LexLeTransitive(a[p], a[j - 1], a[j]);
        }
      }
      i := i + 1;
    }
  }

  /** Exchanges `a[j - 1]` and `a[j]`, keeping the same lines. */
  method SwapAdjacent(a: array<string>, j: nat)
    requires 0 < j < a.Length
    modifies a
    ensures a[..] == old(a[..])[j - 1 := old(a[j])][j := old(a[j - 1])]
    ensures multiset(a[..]) == old(multiset(a[..]))
  {
    a[j - 1], a[j] := a[j], a[j - 1];
  }

  /** Two sorted orderings of the same lines are the same sequence, so the sorted
      block does not depend on how `sort` proceeds. */
  lemma {:induction false} SortedUnique(x: seq<string>, y: seq<string>)
    requires Sorted(x) && Sorted(y) && multiset(x) == multiset(y)
    ensures x == y
    decreases |x|
  {
    assert |x| == |multiset(x)| == |multiset(y)| == |y|;
    if |x| > 0 {
      SortedHeadsAgree(x, y);
      SameTails(x, y);
      SortedTail(x);
      SortedTail(y);
      SortedUnique(x[1..], y[1..]);
      assert x == [x[0]] + x[1..] && y == [y[0]] + y[1..];
    }
  }

  /** The first of two sorted orderings of the same lines is the same line. */
  lemma SortedHeadsAgree(x: seq<string>, y: seq<string>)
    requires Sorted(x) && Sorted(y) && multiset(x) == multiset(y) && |x| > 0 && |y| > 0
    ensures x[0] == y[0]
  {
    assert x[0] in multiset(y);
    assert y[0] in multiset(x);
    var i :| 0 <= i < |y| && y[i] == x[0];
    var j :| 0 <= j < |x| && x[j] == y[0];
    assert LexLe(y[0], x[0]) by {
      if i > 0 { assert LexLe(y[0], y[i]); } else { LexLeReflexive(x[0]); }
    }
    assert LexLe(x[0], y[0]) by {
      if j > 0 { assert LexLe(x[0], x[j]); } else { LexLeReflexive(y[0]); }
    }
    LexLeAntisymmetric(x[0], y[0]);
  }

  lemma SameTails(x: seq<string>, y: seq<string>)
    requires |x| > 0 && |y| > 0 && x[0] == y[0] && multiset(x) == multiset(y)
    ensures multiset(x[1..]) == multiset(y[1..])
  {
    assert x == [x[0]] + x[1..] && y == [y[0]] + y[1..];
    assert multiset(x) == multiset([x[0]]) + multiset(x[1..]);
    assert multiset(y) == multiset([y[0]]) + multiset(y[1..]);
    assert multiset(x[1..]) == multiset(x) - multiset{x[0]};
    assert multiset(y[1..]) == multiset(y) - multiset{y[0]};
  }

  lemma SortedTail(x: seq<string>)
    requires Sorted(x) && |x| > 0
    ensures Sorted(x[1..])
  {
    forall i, j | 0 <= i < j < |x| - 1 ensures LexLe(x[1..][i], x[1..][j]) {
      assert x[1..][i] == x[i + 1] && x[1..][j] == x[j + 1];
    }
  }

  /** What `buildContent` returns for a prepared template: the template itself unless
      sorting is on and the pattern matches; then every occurrence of the run is
      replaced by the run's lines in ascending order. */
  ghost predicate IsBuiltContent(template: string, sortImports: bool, content: string)
  {
    match ImportRun(template)
    case None => content == template
    case Some(run) =>
      if !sortImports then content == template
      else exists lines :: Sorted(lines) && multiset(lines) == multiset(Split(run, '\n'))
                           && content == StrReplace(template, run, Join('\n', lines))
  }

  /** The built content is determined by the template. */
  lemma BuiltContentUnique(template: string, sortImports: bool, c1: string, c2: string)
    requires IsBuiltContent(template, sortImports, c1) && IsBuiltContent(template, sortImports, c2)
    ensures c1 == c2
  {
    match ImportRun(template)
    case None =>
    case Some(run) =>
      if sortImports {
        var l1 :| Sorted(l1) && multiset(l1) == multiset(Split(run, '\n'))
                  && c1 == StrReplace(template, run, Join('\n', l1));
        var l2 :| Sorted(l2) && multiset(l2) == multiset(Split(run, '\n'))
                  && c2 == StrReplace(template, run, Join('\n', l2));
        SortedUnique(l1, l2);
      }
  }

  /** When the run's text occurs nowhere else, sorting changes the run and
      nothing else in the template. */
  lemma SortOnlyTouchesRun(template: string, content: string, lines: seq<string>)
    requires ImportRun(template).Some?
    requires var s := FindImports(template, 0).value.0;
             forall j :: 0 <= j < |template| && j != s ==> !OccursAt(template, ImportRun(template).value, j)
    requires content == StrReplace(template, ImportRun(template).value, Join('\n', lines))
    ensures var s := FindImports(template, 0).value.0;
            var run := ImportRun(template).value;
            content == template[..s] + Join('\n', lines) + template[s + |run|..]
  {
    ImportRunInTemplate(template);
    StrReplaceSole(template, ImportRun(template).value, Join('\n', lines), FindImports(template, 0).value.0);
  }

  /** The sorted lines are the run's own lines, re-ordered: imploding the run's
      lines gives the run back. */
  lemma RunLinesRoundTrip(template: string)
    requires ImportRun(template).Some?
    ensures Join('\n', Split(ImportRun(template).value, '\n')) == ImportRun(template).value
  {
    JoinSplit(ImportRun(template).value, '\n');
  }
}
