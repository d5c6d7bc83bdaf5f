/**
 * The string rules of the generator trait that turn what the user typed into a
 * fully qualified class name (`qualifyClassName`), split that name again for the
 * template placeholders (`parseTemplate`) and join the target file path
 * (`buildPath`). The inflector helpers `singular` and `pascalize` are parameters.
 */
module ClassNames {
  import opened Wrappers
  import opened Php

  predicate IsLetter(c: char)
  {
    'a' <= c <= 'z' || 'A' <= c <= 'Z'
  }

  /** The class `[a-z0-9_\/\\]` under the `/i` flag. */
  predicate IsPathChar(c: char)
  {
    IsLetter(c) || '0' <= c <= '9' || c == '_' || c == '/' || c == '\\'
  }

  /** The pattern `/([a-z][a-z0-9_\/\\]+)(<suffix>)$/i` matches `s` with its first
      group starting at `p`; the first group is then `s[p..|s| - |suffix|]` and the
      second the last `|suffix|` characters. */
  predicate MatchesAt(s: string, suffix: string, p: int)
  {
    && 0 <= p
    && p + 2 + |suffix| <= |s|
    && EqualsIgnoreCase(s[|s| - |suffix|..], suffix)
    && IsLetter(s[p])
    && forall k :: p < k < |s| - |suffix| ==> IsPathChar(s[k])
  }

  /** The leftmost match at or after `from`, as `preg_match` reports it. */
  function FindMatch(s: string, suffix: string, from: nat): (r: Option<nat>)
    ensures r.Some? ==> from <= r.value && MatchesAt(s, suffix, r.value)
    ensures r.Some? ==> forall p :: from <= p < r.value ==> !MatchesAt(s, suffix, p)
    ensures r.None? ==> forall p :: from <= p ==> !MatchesAt(s, suffix, p)
    decreases |s| - from
  {
    if from + 2 + |suffix| > |s| then None
    else if MatchesAt(s, suffix, from) then Some(from)
    else FindMatch(s, suffix, from + 1)
  }

  predicate Matches(s: string, suffix: string)
  {
    FindMatch(s, suffix, 0).Some?
  }

  /** A match means the name ends with the suffix, compared case-insensitively. */
  lemma MatchEndsWithSuffix(s: string, suffix: string)
    requires Matches(s, suffix)
    ensures |suffix| < |s| && EqualsIgnoreCase(s[|s| - |suffix|..], suffix)
  {
  }

  /** `$class = $matches[1] . ucfirst($matches[2])`: a name typed with the component
      in any case gets it capitalised; text in front of the match is dropped. */
  function CanonicalSuffix(s: string, component: string): string
  {
    match FindMatch(s, component, 0)
    case None => s
    case Some(p) => s[p..|s| - |component|] + UcFirst(s[|s| - |component|..])
  }

  /** A name without a match is kept; a matching name keeps only the matched
      part, which still matches from its start, with the component capitalised. */
  lemma CanonicalSuffixShape(s: string, component: string)
    ensures !Matches(s, component) ==> CanonicalSuffix(s, component) == s
    ensures Matches(s, component) ==>
              var r := CanonicalSuffix(s, component);
              && MatchesAt(r, component, 0)
              && r[|r| - |component|..] == UcFirst(s[|s| - |component|..])
              && EqualsIgnoreCase(r[|r| - |component|..], component)
  {
    var m := FindMatch(s, component, 0);
    if m.Some? {
      MatchMovesToFront(s, component, m.value);
      UcFirstSameLetters(s[|s| - |component|..]);
    }
  }

  lemma {:induction false} CanonicalSuffixIdempotent(s: string, component: string)
    ensures CanonicalSuffix(CanonicalSuffix(s, component), component) == CanonicalSuffix(s, component)
  {
    var m := FindMatch(s, component, 0);
    if m.Some? {
      var n := |s| - |component|;
      var t := CanonicalSuffix(s, component);
      MatchMovesToFront(s, component, m.value);
      assert FindMatch(t, component, 0) == Some(0);
      UcFirstSameLetters(s[n..]);
    }
  }

  /** Keeping only the matched part and capitalising the suffix leaves a match at 0. */
  lemma MatchMovesToFront(s: string, component: string, p: nat)
    requires MatchesAt(s, component, p)
    ensures var n := |s| - |component|;
            var t := s[p..n] + UcFirst(s[n..]);
            && MatchesAt(t, component, 0)
            && t[..|t| - |component|] == s[p..n]
            && t[|t| - |component|..] == UcFirst(s[n..])
  {
    var n := |s| - |component|;
    var head := s[p..n];
    var t := head + UcFirst(s[n..]);
    UcFirstSameLetters(s[n..]);
    assert |t| - |component| == |head|;
    assert t[..|head|] == head;
    assert t[|head|..] == UcFirst(s[n..]);
    assert t[0] == s[p];
    forall k | 0 < k < |head| ensures IsPathChar(t[k]) {
      assert t[k] == head[k] == s[p + k];
    }
  }

  /** The `--suffix` rule: the capitalised component is appended only when
      suffixing is enabled, the option is set and the name does not already match. */
  function WithSuffix(s: string, component: string, enabled: bool, option: Value): (r: string)
    ensures r == s || r == s + UcFirst(component)
  {
    if enabled && Truthy(option) && !Matches(s, component) then s + UcFirst(component) else s
  }

  lemma SuffixAppendedExactlyWhen(s: string, component: string, enabled: bool, option: Value)
    requires component != ""
    ensures WithSuffix(s, component, enabled, option) != s
        <==> enabled && Truthy(option) && !Matches(s, component)
    ensures WithSuffix(s, component, enabled, option) != s
        ==> EqualsIgnoreCase(WithSuffix(s, component, enabled, option)[|s|..], component)
  {
    UcFirstSameLetters(component);
    var r := WithSuffix(s, component, enabled, option);
    if enabled && Truthy(option) && !Matches(s, component) {
      assert |r| == |s| + |component|;
      assert r[|s|..] == UcFirst(component);
    }
  }

  /** `explode('\\', str_replace('/', '\\', $s))`: the segments of a name
      typed with either slash. */
  function Segments(s: string): (parts: seq<string>)
    ensures forall k :: 0 <= k < |parts| ==> '\\' !in parts[k] && '/' !in parts[k]
  {
    var replaced := ReplaceChar(s, '/', '\\');
    SplitPartsWithout(replaced, '\\', '/');
    Split(replaced, '\\')
  }

  /** `array_map('pascalize', $parts)` */
  function Pascalized(parts: seq<string>, pascalize: string -> string): (r: seq<string>)
    ensures |r| == |parts| && forall k :: 0 <= k < |parts| ==> r[k] == pascalize(parts[k])
  {
    seq(|parts|, i requires 0 <= i < |parts| => pascalize(parts[i]))
  }

  /** The parts after the leading empty ones. */
  function DropLeadingEmpty(parts: seq<string>): (r: seq<string>)
    ensures |r| <= |parts| && r == parts[|parts| - |r|..]
    ensures r == [] || r[0] != ""
    ensures forall k :: 0 <= k < |parts| - |r| ==> parts[k] == ""
    decreases |parts|
  {
    if |parts| > 0 && parts[0] == "" then DropLeadingEmpty(parts[1..]) else parts
  }

  /** `ltrim(implode('\\', array_map('pascalize', explode('\\', str_replace('/', '\\', trim($class))))), '\\/')` */
  function CanonicalPath(s: string, pascalize: string -> string): (r: string)
    ensures r == [] || (r[0] != '\\' && r[0] != '/')
  {
    TrimLeft(Join('\\', Pascalized(Segments(Trim(s, Whitespace)), pascalize)), {'\\', '/'})
  }

  /** When `pascalize` adds no slash to a segment, the canonical path's segments
      are the pascalized segments of the trimmed name, without the empty ones in
      front; when every segment pascalizes to "", the path is "". */
  lemma CanonicalPathSegments(s: string, pascalize: string -> string)
    requires forall q :: '\\' !in q && '/' !in q ==> '\\' !in pascalize(q) && '/' !in pascalize(q)
    ensures var d := DropLeadingEmpty(Pascalized(Segments(Trim(s, Whitespace)), pascalize));
            && (|d| == 0 ==> CanonicalPath(s, pascalize) == "")
            && (|d| > 0 ==> Split(CanonicalPath(s, pascalize), '\\') == d)
  {
    var d := DropLeadingEmpty(Pascalized(Segments(Trim(s, Whitespace)), pascalize));
    CanonicalPathJoin(s, pascalize);
    if |d| > 0 {
      SplitJoin('\\', d);
    }
  }

  /** The canonical path is the implosion of the pascalized segments after the
      leading empty ones, none of which holds a backslash. */
  lemma CanonicalPathJoin(s: string, pascalize: string -> string)
    requires forall q :: '\\' !in q && '/' !in q ==> '\\' !in pascalize(q) && '/' !in pascalize(q)
    ensures var d := DropLeadingEmpty(Pascalized(Segments(Trim(s, Whitespace)), pascalize));
            && CanonicalPath(s, pascalize) == Join('\\', d)
            && forall k :: 0 <= k < |d| ==> '\\' !in d[k]
  {
    var segs := Segments(Trim(s, Whitespace));
    var ps := Pascalized(segs, pascalize);
    forall k | 0 <= k < |ps|
      ensures '\\' !in ps[k] && '/' !in ps[k]
    {
      assert ps[k] == pascalize(segs[k]);
    }
    TrimLeadingEmpty(ps);
    DroppedSlashFree(ps);
  }

  /** Dropping leading parts keeps the remaining parts slash-free. */
  lemma {:induction false} DroppedSlashFree(parts: seq<string>)
    requires forall k :: 0 <= k < |parts| ==> '\\' !in parts[k] && '/' !in parts[k]
    ensures forall k :: 0 <= k < |DropLeadingEmpty(parts)| ==> '\\' !in DropLeadingEmpty(parts)[k]
    decreases |parts|
  {
    if |parts| > 0 && parts[0] == "" {
      var rest := parts[1..];
      assert forall k :: 0 <= k < |rest| ==> rest[k] == parts[k + 1];
      DroppedSlashFree(rest);
    }
  }

  /** `ltrim(…, '\\/')` of an implosion of slash-free parts removes exactly the
      separators that follow the leading empty parts. */
  lemma {:induction false} TrimLeadingEmpty(parts: seq<string>)
    requires forall k :: 0 <= k < |parts| ==> '\\' !in parts[k] && '/' !in parts[k]
    ensures TrimLeft(Join('\\', parts), {'\\', '/'}) == Join('\\', DropLeadingEmpty(parts))
    decreases |parts|
  {
    if |parts| == 1 && parts[0] == "" {
      assert DropLeadingEmpty(parts) == DropLeadingEmpty([]);
    } else if |parts| > 1 && parts[0] == "" {
      TrimLeadingEmpty(parts[1..]);
      var rest := Join('\\', parts[1..]);
      assert Join('\\', parts) == ['\\'] + rest;
      assert (['\\'] + rest)[1..] == rest;
    } else if |parts| > 0 {
      FirstCharKept(parts);
    }
  }

  /** An implosion that starts with a non-empty part free of slashes has no
      slash to trim in front. */
  lemma FirstCharKept(parts: seq<string>)
    requires |parts| > 0 && parts[0] != "" && '\\' !in parts[0] && '/' !in parts[0]
    ensures TrimLeft(Join('\\', parts), {'\\', '/'}) == Join('\\', parts)
  {
    var j := Join('\\', parts);
    assert j[0] == parts[0][0];
  }

  /** `trim(str_replace('/', '\\', $option ?? APP_NAMESPACE), '\\')`, shared by
      `qualifyClassName` and `buildPath`. */
  function NamespaceOption(option: Value, appNamespace: string): (ns: string)
    ensures '/' !in ns
    ensures ns == [] || (ns[0] != '\\' && ns[|ns| - 1] != '\\')
  {
    Trim(ReplaceChar(AsString(if option.Null? then Str(appNamespace) else option), '/', '\\'), {'\\'})
  }

  /** The namespace option's value: `APP_NAMESPACE` for a null option, the
      string itself otherwise, each with slashes made backslashes and backslashes
      trimmed; a bare flag reads as "1". */
  lemma NamespaceOptionValue(option: Value, appNamespace: string)
    ensures option.Null? ==> NamespaceOption(option, appNamespace) == Trim(ReplaceChar(appNamespace, '/', '\\'), {'\\'})
    ensures option.Str? ==> NamespaceOption(option, appNamespace) == Trim(ReplaceChar(option.s, '/', '\\'), {'\\'})
    ensures option.True? ==> NamespaceOption(option, appNamespace) == "1"
  {
    if option.True? {
      assert ReplaceChar("1", '/', '\\') == "1";
      TrimKeeps("1", {'\\'});
    }
  }

  /** The root namespace, "with the ending backslash". */
  function RootNamespace(option: Value, appNamespace: string): (ns: string)
    ensures |ns| >= 1 && ns[|ns| - 1] == '\\'
    ensures |ns| == 1 || ns[|ns| - 2] != '\\'
  {
    var n := NamespaceOption(option, appNamespace);
    var r := n + "\\";
    assert r[|n|] == '\\';
    assert |n| > 0 ==> r[|n| - 1] == n[|n| - 1];
    r
  }

  /** A namespace given without slashes at its ends comes back with one backslash added. */
  lemma RootNamespaceOfPlainName(name: string, appNamespace: string)
    requires '/' !in name
    requires name == [] || (name[0] != '\\' && name[|name| - 1] != '\\')
    ensures RootNamespace(Str(name), appNamespace) == name + "\\"
  {
    var replaced := ReplaceChar(name, '/', '\\');
    assert replaced == name by {
      ReplaceCharUnchanged(name, '/', '\\');
    }
    TrimKeeps(name, {'\\'});
  }

  lemma {:induction false} ReplaceCharUnchanged(s: string, a: char, b: char)
    requires a !in s
    ensures ReplaceChar(s, a, b) == s
    decreases |s|
  {
    if |s| > 0 {
      ReplaceCharUnchanged(s[1..], a, b);
      assert s == [s[0]] + s[1..];
    }
  }

  /** The name `qualifyClassName` returns, step by step. */
  function QualifiedClassName(
    typed: string, component: string, directory: string, suffixing: bool,
    suffixOption: Value, namespaceOption: Value, appNamespace: string,
    pascalize: string -> string): string
  {
    var named := WithSuffix(CanonicalSuffix(typed, component), component, suffixing, suffixOption);
    var cls := CanonicalPath(named, pascalize);
    PlaceUnder(cls, RootNamespace(namespaceOption, appNamespace), directory)
  }

  /** Every qualified name lies under the root namespace (so it holds a backslash),
      a name already under it is kept, and any other name is placed in the directory. */
  lemma QualifiedUnderRoot(
    typed: string, component: string, directory: string, suffixing: bool,
    suffixOption: Value, namespaceOption: Value, appNamespace: string,
    pascalize: string -> string)
    ensures var r := QualifiedClassName(typed, component, directory, suffixing, suffixOption, namespaceOption, appNamespace, pascalize);
            var ns := RootNamespace(namespaceOption, appNamespace);
            var cls := CanonicalPath(WithSuffix(CanonicalSuffix(typed, component), component, suffixing, suffixOption), pascalize);
            && StartsWith(r, ns)
            && '\\' in r
            && (StartsWith(cls, ns) ==> r == cls)
            && (!StartsWith(cls, ns) ==> r == ns + directory + "\\" + ReplaceChar(cls, '/', '\\'))
  {
    var cls := CanonicalPath(WithSuffix(CanonicalSuffix(typed, component), component, suffixing, suffixOption), pascalize);
    PlacedUnder(cls, RootNamespace(namespaceOption, appNamespace), directory);
  }

  /** The last step of `qualifyClassName`: a name outside the root namespace goes
      into the component's directory below it. */
  function PlaceUnder(cls: string, ns: string, directory: string): string
  {
    if StartsWith(cls, ns) then cls else ns + directory + "\\" + ReplaceChar(cls, '/', '\\')
  }

  /** Below a root ending in a backslash, the placed name starts with the root. */
  lemma PlacedUnder(cls: string, ns: string, directory: string)
    requires |ns| >= 1 && ns[|ns| - 1] == '\\'
    ensures var r := PlaceUnder(cls, ns, directory);
            StartsWith(r, ns) && '\\' in r
  {
    var r := PlaceUnder(cls, ns, directory);
    assert r[..|ns|] == ns;
    assert r[|ns| - 1] == '\\';
  }

  /** `trim(implode('\\', array_slice(explode('\\', $class), 0, -1)), '\\')`:
      the namespace part of a class name. */
  function TemplateNamespace(cls: string): (ns: string)
    ensures ns == [] || (ns[0] != '\\' && ns[|ns| - 1] != '\\')
  {
    var parts := Split(cls, '\\');
    Trim(Join('\\', parts[..|parts| - 1]), {'\\'})
  }

  /** A class name without a backslash has no namespace and is its own short name. */
  lemma TemplateNamesOfBareClass(cls: string)
    requires '\\' !in cls
    ensures TemplateNamespace(cls) == ""
    ensures ShortClass(cls) == cls
  {
    SplitWithout(cls, '\\');
    assert Split(cls, '\\')[..0] == [];
    forall j | 0 <= j < |cls| ensures !OccursAt(cls, "\\", j) {
      if j + 1 <= |cls| {
        assert cls[j..j + 1] == [cls[j]];
      }
    }
    StrReplaceAbsent(cls, "\\", "");
    assert TemplateNamespace(cls) + "\\" == "\\";
  }

  /** `str_replace($namespace . '\\', '', $class)`: the short class name. */
  function ShortClass(cls: string): string
  {
    StrReplace(cls, TemplateNamespace(cls) + "\\", "")
  }

  /** For a qualified name the placeholders get the segments before the last
      backslash and the last segment. */
  lemma {:induction false} TemplateNamesOfQualified(ns: string, short: string)
    requires ns == [] || (ns[0] != '\\' && ns[|ns| - 1] != '\\')
    requires '\\' !in short
    ensures TemplateNamespace(ns + "\\" + short) == ns
    ensures ShortClass(ns + "\\" + short) == short
  {
    var cls := ns + "\\" + short;
    SplitAt(ns, short, '\\');
    SplitWithout(short, '\\');
    var parts := Split(cls, '\\');
    assert parts[..|parts| - 1] == Split(ns, '\\');
    JoinSplit(ns, '\\');
    TrimKeeps(ns, {'\\'});
    assert TemplateNamespace(cls) == ns;
    var x := ns + "\\";
    assert StartsWith(cls, x);
    assert cls[|x|..] == short;
    forall j | 0 <= j < |short| ensures !OccursAt(short, x, j) {
      if j + |x| <= |short| {
        assert short[j..j + |x|][|x| - 1] == short[j + |x| - 1] != '\\';
        assert x[|x| - 1] == '\\';
      }
    }
    StrReplaceAbsent(short, x, "");
  }

  /** `parseTemplate`: the caller's pairs first, then `<@php`, `{namespace}` and `{class}`. */
  function ParseTemplate(cls: string, search: seq<string>, replace: seq<string>, rendered: string): string
  {
    StrReplaceEach(rendered, search + ["<@php", "{namespace}", "{class}"],
                   replace + ["<?php", TemplateNamespace(cls), ShortClass(cls)])
  }

  /** Rendered text holding none of the search strings passes through unchanged. */
  lemma {:induction false} ReplaceEachAbsent(s: string, search: seq<string>, replace: seq<string>)
    requires forall i, j :: 0 <= i < |search| && 0 <= j < |s| ==> !OccursAt(s, search[i], j)
    ensures StrReplaceEach(s, search, replace) == s
    decreases |search|
  {
    if |search| > 0 {
      var rep := if |replace| > 0 then replace[0] else "";
      StrReplaceAbsent(s, search[0], rep);
      ReplaceEachAbsent(s, search[1..], if |replace| > 0 then replace[1..] else []);
    }
  }

  lemma ParseTemplatePlainText(cls: string, search: seq<string>, replace: seq<string>, rendered: string)
    requires forall i, j :: 0 <= i < |search| && 0 <= j < |rendered| ==> !OccursAt(rendered, search[i], j)
    requires forall j :: 0 <= j < |rendered| ==> rendered[j] != '<' && rendered[j] != '{'
    ensures ParseTemplate(cls, search, replace, rendered) == rendered
  {
    var all := search + ["<@php", "{namespace}", "{class}"];
    forall i, j | 0 <= i < |all| && 0 <= j < |rendered| ensures !OccursAt(rendered, all[i], j) {
      if i >= |search| && j + |all[i]| <= |rendered| {
        assert rendered[j..j + |all[i]|][0] == rendered[j];
        assert all[i][0] == '<' || all[i][0] == '{';
      }
    }
    ReplaceEachAbsent(rendered, all, replace + ["<?php", TemplateNamespace(cls), ShortClass(cls)]);
  }

  /** With as many replacements as search strings and none of those in the text,
      `parseTemplate` comes down to its own three replacements, in their order. */
  lemma ParseTemplateSteps(cls: string, search: seq<string>, replace: seq<string>, t: string)
    requires |replace| == |search|
    requires forall i, j :: 0 <= i < |search| && 0 <= j < |t| ==> !OccursAt(t, search[i], j)
    ensures ParseTemplate(cls, search, replace, t)
            == StrReplace(StrReplace(StrReplace(t, "<@php", "<?php"), "{namespace}", TemplateNamespace(cls)),
                          "{class}", ShortClass(cls))
  {
    var own := ["<@php", "{namespace}", "{class}"];
    var reps := ["<?php", TemplateNamespace(cls), ShortClass(cls)];
    StrReplaceEachAppend(t, search, replace, own, reps);
    ReplaceEachAbsent(t, search, replace);
    assert own[1..] == ["{namespace}", "{class}"] && reps[1..] == [TemplateNamespace(cls), ShortClass(cls)];
    assert own[1..][1..] == ["{class}"] && reps[1..][1..] == [ShortClass(cls)];
  }

  /** The caller's pairs come first: two of them are two `str_replace`s before
      the template's own placeholders. */
  lemma ParseTemplateCallerPairs(cls: string, s1: string, r1: string, s2: string, r2: string, t: string)
    ensures ParseTemplate(cls, [s1, s2], [r1, r2], t)
            == ParseTemplate(cls, [], [], StrReplace(StrReplace(t, s1, r1), s2, r2))
  {
    var own := ["<@php", "{namespace}", "{class}"];
    var reps := ["<?php", TemplateNamespace(cls), ShortClass(cls)];
    var u := StrReplace(StrReplace(t, s1, r1), s2, r2);
    StrReplaceEachAppend(t, [s1, s2], [r1, r2], own, reps);
    assert [s1, s2][1..] == [s2] && [r1, r2][1..] == [r2];
    assert StrReplaceEach(t, [s1, s2], [r1, r2]) == StrReplaceEach(StrReplace(t, s1, r1), [s2], [r2]);
    assert StrReplaceEach(StrReplace(t, s1, r1), [s2], [r2]) == StrReplaceEach(u, [], []);
    assert [] + own == own && [] + reps == reps;
  }

  /** `{class}` becomes the short class name. */
  lemma ParseTemplateClass(cls: string, search: seq<string>, replace: seq<string>, a: string, b: string)
    requires |replace| == |search|
    requires var t := a + "{class}" + b;
             && (forall i, j :: 0 <= i < |search| && 0 <= j < |t| ==> !OccursAt(t, search[i], j))
             && (forall j :: 0 <= j < |t| ==> !OccursAt(t, "<@php", j) && !OccursAt(t, "{namespace}", j))
             && (forall j :: 0 <= j < |t| && j != |a| ==> !OccursAt(t, "{class}", j))
    ensures ParseTemplate(cls, search, replace, a + "{class}" + b) == a + ShortClass(cls) + b
  {
    var t := a + "{class}" + b;
    ParseTemplateSteps(cls, search, replace, t);
    StrReplaceAbsent(t, "<@php", "<?php");
    StrReplaceAbsent(t, "{namespace}", TemplateNamespace(cls));
    ReplaceSole(a, "{class}", b, ShortClass(cls));
  }

  /** `{namespace}` becomes the namespace part of the class name. */
  lemma ParseTemplateNamespace(cls: string, search: seq<string>, replace: seq<string>, a: string, b: string)
    requires |replace| == |search|
    requires var t := a + "{namespace}" + b;
             && (forall i, j :: 0 <= i < |search| && 0 <= j < |t| ==> !OccursAt(t, search[i], j))
             && (forall j :: 0 <= j < |t| ==> !OccursAt(t, "<@php", j))
             && (forall j :: 0 <= j < |t| && j != |a| ==> !OccursAt(t, "{namespace}", j))
    requires var u := a + TemplateNamespace(cls) + b;
             forall j :: 0 <= j < |u| ==> !OccursAt(u, "{class}", j)
    ensures ParseTemplate(cls, search, replace, a + "{namespace}" + b) == a + TemplateNamespace(cls) + b
  {
    var t := a + "{namespace}" + b;
    ParseTemplateSteps(cls, search, replace, t);
    StrReplaceAbsent(t, "<@php", "<?php");
    ReplaceSole(a, "{namespace}", b, TemplateNamespace(cls));
    StrReplaceAbsent(a + TemplateNamespace(cls) + b, "{class}", ShortClass(cls));
  }

  /** `<@php` becomes the `<?php` opening tag. */
  lemma ParseTemplatePhp(cls: string, search: seq<string>, replace: seq<string>, a: string, b: string)
    requires |replace| == |search|
    requires var t := a + "<@php" + b;
             && (forall i, j :: 0 <= i < |search| && 0 <= j < |t| ==> !OccursAt(t, search[i], j))
             && (forall j :: 0 <= j < |t| && j != |a| ==> !OccursAt(t, "<@php", j))
    requires var u := a + "<?php" + b;
             forall j :: 0 <= j < |u| ==> !OccursAt(u, "{namespace}", j) && !OccursAt(u, "{class}", j)
    ensures ParseTemplate(cls, search, replace, a + "<@php" + b) == a + "<?php" + b
  {
    ParseTemplateSteps(cls, search, replace, a + "<@php" + b);
    ReplaceSole(a, "<@php", b, "<?php");
    var u := a + "<?php" + b;
    StrReplaceAbsent(u, "{namespace}", TemplateNamespace(cls));
    StrReplaceAbsent(u, "{class}", ShortClass(cls));
  }

  /** A search string that occurs once, between `a` and `b`, is replaced there only. */
  lemma ReplaceSole(a: string, x: string, b: string, y: string)
    requires |x| > 0
    requires forall j :: 0 <= j < |a + x + b| && j != |a| ==> !OccursAt(a + x + b, x, j)
    ensures StrReplace(a + x + b, x, y) == a + y + b
  {
    var t := a + x + b;
    assert t[|a|..|a| + |x|] == x;
    StrReplaceSole(t, x, y, |a|);
    assert t[..|a|] == a && t[|a| + |x|..] == b;
  }

  /** PHP's `basename` on a path: the last `/` segment once trailing slashes are gone. */
  function Basename(path: string): string
  {
    var parts := Split(TrimRight(path, {'/'}), '/');
    parts[|parts| - 1]
  }

  /** The class below the root namespace, as a path relative to the base directory. */
  function RelativeFile(namespace: string, cls: string): string
  {
    ReplaceChar(Trim(StrReplace(cls, namespace + "\\", ""), {'\\'}), '\\', '/')
  }

  /** The path `buildPath` builds once the autoloader gave the base directory:
      the class below the root namespace as a `.php` file. */
  function FilePath(base: string, namespace: string, cls: string): string
  {
    base + "/" + RelativeFile(namespace, cls) + ".php"
  }

  /** The file lies below the base directory, is a `.php` file, and has no
      backslash after the base: every namespace separator became a slash. */
  lemma FilePathShape(base: string, namespace: string, cls: string)
    ensures var r := FilePath(base, namespace, cls);
            && StartsWith(r, base + "/") && EndsWith(r, ".php")
            && '\\' !in r[|base|..]
  {
    var rel := RelativeFile(namespace, cls);
    SlashedFileShape(base + "/", rel);
    var r := FilePath(base, namespace, cls);
    assert r[|base|..] == "/" + rel + ".php";
  }

  /** For a class `ns\rel` in which `ns\` occurs only in front, the file is `rel`
      with its backslashes turned into slashes, below the base directory. */
  lemma FilePathOfQualified(base: string, ns: string, rel: string)
    requires rel == [] || (rel[0] != '\\' && rel[|rel| - 1] != '\\')
    requires var cls := ns + "\\" + rel;
             forall j :: 0 < j < |cls| ==> !OccursAt(cls, ns + "\\", j)
    ensures FilePath(base, ns, ns + "\\" + rel) == base + "/" + ReplaceChar(rel, '\\', '/') + ".php"
  {
    var x := ns + "\\";
    assert ns + "\\" + rel == [] + x + rel;
    ReplaceSole([], x, rel, []);
    assert [] + [] + rel == rel;
    TrimKeeps(rel, {'\\'});
  }

  /** A class two segments below the namespace lands two directories below the base. */
  lemma FilePathOfTwoSegments(base: string, ns: string, a: string, b: string)
    requires a != [] && b != [] && '\\' !in a && '\\' !in b
    requires var cls := ns + "\\" + (a + "\\" + b);
             forall j :: 0 < j < |cls| ==> !OccursAt(cls, ns + "\\", j)
    ensures FilePath(base, ns, ns + "\\" + (a + "\\" + b)) == base + "/" + a + "/" + b + ".php"
  {
    var rel := a + "\\" + b;
    FilePathOfQualified(base, ns, rel);
    ReplaceCharAppend(a + "\\", b, '\\', '/');
    ReplaceCharAppend(a, "\\", '\\', '/');
    ReplaceCharUnchanged(a, '\\', '/');
    ReplaceCharUnchanged(b, '\\', '/');
  }

  lemma SlashedFileShape(dir: string, rel: string)
    ensures var r := dir + rel + ".php";
            StartsWith(r, dir) && EndsWith(r, ".php")
  {
    var r := dir + rel + ".php";
    assert r[..|dir|] == dir;
    assert r[|r| - 4..] == ".php";
  }

  /** The last step of `buildPath`: the file's directory, then `stamp` in front of
      its base name (what the `basename` hook adds; "" by default). */
  function StampBasename(file: string, stamp: string): string
  {
    var parts := Split(file, '/');
    Join('/', parts[..|parts| - 1]) + "/" + stamp + Basename(file)
  }

  function JoinPath(base: string, namespace: string, cls: string, stamp: string): string
  {
    StampBasename(FilePath(base, namespace, cls), stamp)
  }

  /** The basename hook changes the last path segment only; with the default hook
      the path is the file path itself. */
  lemma JoinPathStamp(base: string, namespace: string, cls: string, stamp: string)
    ensures var file := FilePath(base, namespace, cls);
            && EndsWith(file, Basename(file))
            && JoinPath(base, namespace, cls, stamp)
               == file[..|file| - |Basename(file)|] + stamp + Basename(file)
    ensures JoinPath(base, namespace, cls, "") == FilePath(base, namespace, cls)
  {
    var rel := RelativeFile(namespace, cls) + ".php";
    assert FilePath(base, namespace, cls) == base + "/" + rel;
    StampBasenameSplit(base, rel, stamp);
    StampBasenameSplit(base, rel, "");
  }

  /** Below a directory, the stamp goes in front of the text after the last `/`. */
  lemma StampBasenameSplit(dir: string, rel: string, stamp: string)
    requires |rel| > 0 && rel[|rel| - 1] != '/'
    ensures var file := dir + "/" + rel;
            && EndsWith(file, Basename(file))
            && StampBasename(file, stamp) == file[..|file| - |Basename(file)|] + stamp + Basename(file)
            && StampBasename(file, "") == file
  {
    var file := dir + "/" + rel;
    assert file[|file| - 1] == rel[|rel| - 1];
    BasenameIsLastPart(file);
    SlashedHasTwoParts(dir, rel);
    FrontAndLastPart(file);
    var parts := Split(file, '/');
    var last := parts[|parts| - 1];
    var front := Join('/', parts[..|parts| - 1]) + "/";
    assert file[..|file| - |last|] == front;
  }

  lemma SlashedHasTwoParts(dir: string, rel: string)
    ensures |Split(dir + "/" + rel, '/')| >= 2
  {
    SplitAt(dir, rel, '/');
  }

  /** The parts before the last one, imploded, and the last one make up the string. */
  lemma FrontAndLastPart(file: string)
    requires |Split(file, '/')| >= 2
    ensures var parts := Split(file, '/');
            Join('/', parts[..|parts| - 1]) + "/" + parts[|parts| - 1] == file
  {
    JoinAllButLast('/', Split(file, '/'));
    JoinSplit(file, '/');
  }

  /** Without a trailing slash, the base name is the last exploded part. */
  lemma BasenameIsLastPart(file: string)
    requires |file| > 0 && file[|file| - 1] != '/'
    ensures var parts := Split(file, '/'); Basename(file) == parts[|parts| - 1]
  {
    assert TrimRight(file, {'/'}) == file;
  }
}
