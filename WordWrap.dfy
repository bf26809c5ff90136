/** `wrapToLines` (CineColombiaManager.java): a greedy word wrap. The
    formatter never calls it; it splits a string into lines of at most
    `maxWidth` characters, breaking at the last space that fits. */
module WordWrap {

  /** The characters Java's `String.trim` strips: code points up to and
      including U+0020. */
  predicate IsTrimmed(c: char) { c <= ' ' }

  /** The leading half of `trim`: drops the characters up to U+0020 at
      the start, and only those. */
  function TrimStart(s: string): (r: string)
    ensures |r| <= |s|
    ensures r == s[|s| - |r|..]
    ensures forall k {:trigger IsTrimmed(s[k])} :: 0 <= k < |s| - |r| ==> IsTrimmed(s[k])
    ensures r != [] ==> !IsTrimmed(r[0])
  {
    if s != [] && IsTrimmed(s[0]) then TrimStart(s[1..]) else s
  }

  /** The trailing half of `trim`, the mirror of `TrimStart`. */
  function TrimEnd(s: string): (r: string)
    ensures |r| <= |s|
    ensures r == s[..|r|]
    ensures forall k {:trigger IsTrimmed(s[k])} :: |r| <= k < |s| ==> IsTrimmed(s[k])
    ensures r != [] ==> !IsTrimmed(r[|r| - 1])
  {
    if s != [] && IsTrimmed(s[|s| - 1]) then TrimEnd(s[..|s| - 1]) else s
  }

  /** `String.trim`. */
  function Trim(s: string): (r: string)
    ensures |r| <= |s|
  {
    TrimEnd(TrimStart(s))
  }

  /** `s.lastIndexOf(c, from)`: the largest index `k <= from` with
      `s[k] == c`, or -1. A `from` past the end searches the whole string. */
  function LastIndexOf(s: string, c: char, from: int): (k: int)
    ensures -1 <= k < |s| && (k == -1 || k <= from)
    ensures k >= 0 ==> s[k] == c
    ensures forall j :: k < j < |s| && j <= from ==> s[j] != c
    decreases if from >= |s| then |s| + 1 else if from < 0 then 0 else from + 1
  {
    if from >= |s| then LastIndexOf(s, c, |s| - 1)
    else if from < 0 then -1
    else if s[from] == c then from
    else LastIndexOf(s, c, from - 1)
  }

  /** Where a line too long for `maxWidth` is cut: at the last space at or
      before index `maxWidth`, unless that is none or the very first
      character, in which case the line is broken hard at `maxWidth`. */
  function BreakPos(remaining: string, maxWidth: nat): (b: nat)
    requires 1 <= maxWidth < |remaining|
    ensures 1 <= b <= maxWidth
    ensures (remaining[b] == ' ' && forall j :: b < j <= maxWidth ==> remaining[j] != ' ') ||
            (b == maxWidth && forall j :: 1 <= j <= maxWidth ==> remaining[j] != ' ')
  {
    var p := LastIndexOf(remaining, ' ', maxWidth);
    if p <= 0 then maxWidth else p
  }

  /** The lines the loop emits from `remaining` onward. */
  function WrapFrom(remaining: string, maxWidth: nat): seq<string>
    requires maxWidth >= 1
    decreases |remaining|
  {
    if remaining == [] then []
    else if |remaining| <= maxWidth then [remaining]
    else
      var b := BreakPos(remaining, maxWidth);
      [remaining[..b]] + WrapFrom(Trim(remaining[b..]), maxWidth)
  }

  /** `wrapToLines(s, maxWidth)` as a function: the loop's lines, or the
      single line "" when the loop emitted none. A null `s` gives `[""]`,
      the same as the empty string. */
  function Wrap(s: string, maxWidth: nat): seq<string>
    requires maxWidth >= 1
  {
    var lines := WrapFrom(s, maxWidth);
    if lines == [] then [""] else lines
  }

  /** `wrapToLines` with its `while` loop. A `maxWidth` below 1 makes the
      source loop forever (0) or throw (negative), so it is excluded. */
  method WrapToLines(s: string, maxWidth: int) returns (out: seq<string>)
    requires maxWidth >= 1
    ensures out == Wrap(s, maxWidth)
    ensures |out| >= 1
    ensures forall i :: 0 <= i < |out| ==> |out[i]| <= maxWidth
  {
    out := [];
    var remaining := s;
    while remaining != []
      invariant out + WrapFrom(remaining, maxWidth) == WrapFrom(s, maxWidth)
      decreases |remaining|
    {
      if |remaining| <= maxWidth {
        // the last line; the source leaves the loop with `break`
        AppendLine(out, remaining, []);
        out := out + [remaining];
        remaining := [];
      } else {
        var breakPos := LastIndexOf(remaining, ' ', maxWidth);
        if breakPos <= 0 {
          breakPos := maxWidth;
        }
        assert breakPos == BreakPos(remaining, maxWidth);
        var rest := Trim(remaining[breakPos..]);
        AppendLine(out, remaining[..breakPos], WrapFrom(rest, maxWidth));
        out := out + [remaining[..breakPos]];
        remaining := rest;
      }
    }
    AppendLine(out, "", []);
    if out == [] {
      out := out + [""];
    }
    WrapBounds(s, maxWidth);
  }

  lemma AppendLine(out: seq<string>, line: string, later: seq<string>)
    ensures out + [line] + later == out + ([line] + later)
    ensures out + [] == out
  {
  }

  /** Every line the loop emits is non-empty and at most `maxWidth` long. */
  lemma {:induction false} WrapFromBounds(remaining: string, maxWidth: nat)
    requires maxWidth >= 1
    ensures forall i :: 0 <= i < |WrapFrom(remaining, maxWidth)| ==>
      1 <= |WrapFrom(remaining, maxWidth)[i]| <= maxWidth
    decreases |remaining|
  {
    if remaining != [] && |remaining| > maxWidth {
      var b := BreakPos(remaining, maxWidth);
      var rest := WrapFrom(Trim(remaining[b..]), maxWidth);
      WrapFromBounds(Trim(remaining[b..]), maxWidth);
      var lines := WrapFrom(remaining, maxWidth);
      assert lines == [remaining[..b]] + rest;
      forall i | 0 <= i < |lines| ensures 1 <= |lines[i]| <= maxWidth {
        if i > 0 { assert lines[i] == rest[i - 1]; }
      }
    }
  }

  /** The result is never empty, no line is longer than `maxWidth`, and the
      only empty line is the one for an empty input. */
  lemma WrapBounds(s: string, maxWidth: nat)
    requires maxWidth >= 1
    ensures |Wrap(s, maxWidth)| >= 1
    ensures forall i :: 0 <= i < |Wrap(s, maxWidth)| ==> |Wrap(s, maxWidth)[i]| <= maxWidth
    ensures s == "" <==> Wrap(s, maxWidth) == [""]
    ensures 0 < |s| <= maxWidth ==> Wrap(s, maxWidth) == [s]
  {
    WrapFromBounds(s, maxWidth);
    if s != "" {
      assert |WrapFrom(s, maxWidth)[0]| >= 1;
    }
  }

  /** The characters `trim` never removes. */
  function Visible(s: string): (r: string)
    ensures |r| <= |s|
  {
    if s == [] then [] else (if IsTrimmed(s[0]) then [] else [s[0]]) + Visible(s[1..])
  }

  function Concat(lines: seq<string>): string {
    if lines == [] then "" else lines[0] + Concat(lines[1..])
  }

  lemma {:induction false} VisibleAppend(a: string, b: string)
    ensures Visible(a + b) == Visible(a) + Visible(b)
  {
    if a == [] {
      assert a + b == b;
    } else {
      assert (a + b)[0] == a[0] && (a + b)[1..] == a[1..] + b;
      VisibleAppend(a[1..], b);
    }
  }

  lemma {:induction false} VisibleTrimStart(s: string)
    ensures Visible(TrimStart(s)) == Visible(s)
  {
    if s != [] && IsTrimmed(s[0]) {
      VisibleTrimStart(s[1..]);
    }
  }

  lemma {:induction false} VisibleTrimEnd(s: string)
    ensures Visible(TrimEnd(s)) == Visible(s)
  {
    if s != [] && IsTrimmed(s[|s| - 1]) {
      var init := s[..|s| - 1];
      VisibleTrimEnd(init);
      assert s == init + [s[|s| - 1]];
      VisibleAppend(init, [s[|s| - 1]]);
      assert Visible([s[|s| - 1]]) == [];
    }
  }

  lemma VisibleSplit(s: string, b: nat)
    requires b <= |s|
    ensures Visible(s) == Visible(s[..b]) + Visible(s[b..])
  {
    assert s == s[..b] + s[b..];
    VisibleAppend(s[..b], s[b..]);
  }

  lemma VisibleTrim(s: string)
    ensures Visible(Trim(s)) == Visible(s)
  {
    VisibleTrimStart(s);
    VisibleTrimEnd(TrimStart(s));
  }

  lemma ConcatCons(head: string, tail: seq<string>)
    ensures Concat([head] + tail) == head + Concat(tail)
  {
    assert ([head] + tail)[1..] == tail;
  }

  /** Wrapping loses nothing but white space: the visible characters of the
      lines, read in order, are those of the input. */
  lemma {:induction false} WrapFromKeepsText(remaining: string, maxWidth: nat)
    requires maxWidth >= 1
    ensures Visible(Concat(WrapFrom(remaining, maxWidth))) == Visible(remaining)
    decreases |remaining|
  {
    if remaining == [] {
    } else if |remaining| <= maxWidth {
      ConcatCons(remaining, []);
      assert remaining + "" == remaining;
    } else {
      var b := BreakPos(remaining, maxWidth);
      var rest := Trim(remaining[b..]);
      WrapFromKeepsText(rest, maxWidth);
      WrapStepKeepsText(remaining, maxWidth, b, rest);
    }
  }

  /** One turn of the loop: the line cut off, followed by the rest, has the
      visible characters of `remaining`. */
  lemma WrapStepKeepsText(remaining: string, maxWidth: nat, b: nat, rest: string)
    requires 1 <= maxWidth < |remaining| && b == BreakPos(remaining, maxWidth)
    requires rest == Trim(remaining[b..])
    requires Visible(Concat(WrapFrom(rest, maxWidth))) == Visible(rest)
    ensures Visible(Concat(WrapFrom(remaining, maxWidth))) == Visible(remaining)
  {
    var restLines := WrapFrom(rest, maxWidth);
    assert WrapFrom(remaining, maxWidth) == [remaining[..b]] + restLines;
    ConcatCons(remaining[..b], restLines);
    VisibleAppend(remaining[..b], Concat(restLines));
    VisibleTrim(remaining[b..]);
    VisibleSplit(remaining, b);
  }

  lemma WrapKeepsText(s: string, maxWidth: nat)
    requires maxWidth >= 1
    ensures Visible(Concat(Wrap(s, maxWidth))) == Visible(s)
  {
    WrapFromKeepsText(s, maxWidth);
    if WrapFrom(s, maxWidth) == [] {
      assert [""][1..] == [];
      assert Concat([""]) == "";
    }
  }
}
