/**
 * Column alignment helpers of the CLI command base class: `setPad` pads a
 * title so that descriptions line up, `getPad` computes the width of the
 * widest key plus a margin.
 */
module BaseCommand {
  import opened Php

  /** `setPad`: `indent` spaces, then the item, right-padded with spaces to
      `max + extra + indent` characters; a longer item is never cut. */
  function SetPad(item: string, max: int, extra: int, indent: nat): (r: string)
    ensures |r| == if max + extra + indent > indent + |item| then max + extra + indent else indent + |item|
    ensures r[..indent] == Spaces(indent)
    ensures r[indent..indent + |item|] == item
    ensures forall i :: indent + |item| <= i < |r| ==> r[i] == ' '
  {
    var r := PadRight(Spaces(indent) + item, max + extra + indent);
    assert r[..indent + |item|] == Spaces(indent) + item;
    assert r[..indent] == r[..indent + |item|][..indent];
    assert r[indent..indent + |item|] == r[..indent + |item|][indent..];
    r
  }

  /** Titles no longer than `max` all come out the same width, so the text
      printed after them starts in one column. */
  lemma SetPadAligns(a: string, b: string, max: int, extra: nat, indent: nat)
    requires |a| <= max && |b| <= max
    ensures |SetPad(a, max, extra, indent)| == |SetPad(b, max, extra, indent)| == max + extra + indent
  {
  }

  /** `getPad`: the length of the longest key, at least 0, plus `pad`. */
  method GetPad(keys: seq<string>, pad: int) returns (r: int)
    ensures r >= pad
    ensures forall k :: k in keys ==> |k| + pad <= r
    ensures r == pad || exists k :: k in keys && |k| + pad == r
  {
    var max := 0;
    var i := 0;
    while i < |keys|
      invariant 0 <= i <= |keys|
      invariant max >= 0
      invariant forall j :: 0 <= j < i ==> |keys[j]| <= max
      invariant max == 0 || exists j :: 0 <= j < i && |keys[j]| == max
    {
      if |keys[i]| > max {
        max := |keys[i]|;
      }
      i := i + 1;
    }
    r := max + pad;
  }
}
