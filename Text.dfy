/** The small string helpers of the formatter: `repeat`, `pad`, `center`
    and `formatCell` (CineColombiaManager.java).

    Java strings cannot be modelled as null here; in every one of these
    helpers a null argument is first replaced by "" (or, for `repeat`, cannot
    occur), so a null input behaves exactly as the empty string does. */
module Text {

  function Min(a: int, b: int): int { if a <= b then a else b }

  function Max(a: int, b: int): int { if a >= b then a else b }

  /** Java's `t.repeat(n)`: `n` copies of `t`, one after the other. */
  function RepeatStr(t: string, n: nat): (r: string)
    ensures |r| == n * |t|
    ensures forall c :: c in r ==> c in t
  {
    if n == 0 then "" else t + RepeatStr(t, n - 1)
  }

  /** `repeat(c, n)`: the character `c` repeated `n` times, or no character
      at all when `n` is negative. */
  function Repeat(c: char, n: int): (r: string)
    ensures |r| == Max(0, n)
    ensures forall k :: 0 <= k < |r| ==> r[k] == c
  {
    var r := RepeatStr([c], Max(0, n));
    assert forall k :: 0 <= k < |r| ==> r[k] in [c];
    r
  }

  /** `pad(s, width)`. It is meant to fill `s` up to `width`, but it fills
      with `"".repeat(...)`, so it always returns `s` itself. */
  function Pad(s: string, width: int): (r: string)
    ensures r == s
  {
    if |s| >= width then s
    else s + RepeatStr("", width - |s|)
  }

  /** `center(s, width)`. A string at least as wide as the column is cut to
      the width; a shorter one is "padded" left and right with
      `"".repeat(...)`, which adds nothing. So the result is always the
      first `min(|s|, width)` characters of `s`. A negative width makes the
      Java `substring` throw, so the width is a `nat`. */
  function Center(s: string, width: nat): (r: string)
    ensures r == s[..Min(|s|, width)]
  {
    if |s| >= width then s[..width]
    else
      var totalPad := width - |s|;
      var left := totalPad / 2;
      var right := totalPad - left;
      RepeatStr("", left) + s + RepeatStr("", right)
  }

  /** `formatCell(s, width, rightAlign)`. The cell is cut to the width, then
      "padded" on the side `rightAlign` selects, again with
      `"".repeat(...)`. The alignment flag therefore has no effect and the
      result is the first `min(|s|, width)` characters of `s`. */
  function FormatCell(s: string, width: nat, rightAlign: bool): (r: string)
    ensures r == s[..Min(|s|, width)]
    ensures |s| <= width ==> r == s
  {
    var cut := if |s| > width then s[..width] else s;
    var pad := width - |cut|;
    if pad <= 0 then cut
    else if rightAlign then RepeatStr("", pad) + cut
    else cut + RepeatStr("", pad)
  }
}
