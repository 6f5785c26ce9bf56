/** The disk-usage bar of the widget (`DiskUsageView`): how wide the filled
    part is and which colour it gets. Exact real arithmetic stands for
    `Double`/`CGFloat`. */
module DiskUsage {
  import opened Common

  /** The bar's height, and the smallest width a filled bar is drawn with. */
  const SIZE: real := 5.0

  datatype BarColor = Primary | Green | Orange | Red

  /** `width(fullWidth:)`: the filled width for `used` of `used + available`
      bytes in a bar `fullWidth` wide. Adding the two `Int64`s traps on
      overflow, so callers must keep the total in range. */
  function Width(used: Int, available: Int, fullWidth: real): (w: real)
    requires InInt64(used + available)
    ensures used + available <= 0 ==> w == 0.0
    ensures used + available > 0 ==> w >= SIZE
  {
    var total := used + available;
    if total <= 0 then 0.0
    else
      var width := (used as real / total as real) * fullWidth;
      if width > SIZE then width else SIZE
  }

  /** With a positive total, the bar is drawn at the minimum width exactly when
      `used * fullWidth <= SIZE * total`, and otherwise at the proportional
      width `w` with `w * total == used * fullWidth`. */
  lemma WidthClamp(used: Int, available: Int, fullWidth: real)
    requires InInt64(used + available) && used + available > 0
    ensures var w, total := Width(used, available, fullWidth), (used + available) as real;
      && (w == SIZE <==> used as real * fullWidth <= SIZE * total)
      && (w != SIZE ==> w * total == used as real * fullWidth)
  {
  }

  /** A part of a positive whole is a share between 0 and 1. */
  lemma ShareInUnit(part: real, whole: real)
    requires whole > 0.0 && 0.0 <= part <= whole
    ensures 0.0 <= part / whole <= 1.0
  {
    var share := part / whole;
    assert share * whole == part;
  }

  /** A share between nothing and everything never draws wider than the bar
      itself, or than the minimum width. */
  lemma WidthBounded(used: Int, available: Int, fullWidth: real)
    requires InInt64(used + available) && used + available > 0
    requires 0 <= used <= used + available
    ensures Width(used, available, fullWidth) <= if fullWidth > SIZE then fullWidth else SIZE
  {
    var total := (used + available) as real;
    var share := used as real / total;
    ShareInUnit(used as real, total);
    if fullWidth >= 0.0 {
      assert share * fullWidth <= fullWidth by {
        assert (1.0 - share) * fullWidth >= 0.0;
      }
    } else {
      assert share * fullWidth <= 0.0;
    }
  }

  /** `color`: primary for an empty total, and otherwise green below 70 %,
      orange below 90 % and red from there on. */
  function Color(used: Int, available: Int): (c: BarColor)
    requires InInt64(used + available)
    ensures c == Primary <==> used + available <= 0
  {
    var total := used + available;
    if total <= 0 then Primary
    else
      var usedPercentage := used as real / total as real;
      if usedPercentage < 0.7 then Green
      else if usedPercentage < 0.9 then Orange
      else Red
  }

  /** `u / t < num / den` for positive denominators, stated without division. */
  lemma RatioBelow(u: int, t: int, num: int, den: int)
    requires t > 0 && den > 0
    ensures u as real / t as real < num as real / den as real <==> den * u < num * t
  {
  }

  /** The colour bands in integer cross-multiplied form: green when
      `10 * used < 7 * total`, red when `10 * used >= 9 * total`, orange between. */
  lemma ColorBands(used: Int, available: Int)
    requires InInt64(used + available)
    ensures var total := used + available;
      && (total <= 0 <==> Color(used, available) == Primary)
      && (total > 0 ==>
        && (Color(used, available) == Green <==> 10 * used < 7 * total)
        && (Color(used, available) == Orange <==> 7 * total <= 10 * used < 9 * total)
        && (Color(used, available) == Red <==> 9 * total <= 10 * used))
  {
    var total := used + available;
    if total > 0 {
      RatioBelow(used, total, 7, 10);
      RatioBelow(used, total, 9, 10);
      assert 0.7 == 7 as real / 10 as real;
      assert 0.9 == 9 as real / 10 as real;
    }
  }

  /** How alarming a colour is: green, then orange, then red. */
  function Severity(c: BarColor): nat {
    match c
    case Primary => 0
    case Green => 0
    case Orange => 1
    case Red => 2
  }

  /** With the total held fixed, using more never moves the colour back
      from red to orange or from orange to green. */
  lemma ColorMonotone(used1: Int, available1: Int, used2: Int, available2: Int)
    requires InInt64(used1 + available1) && used1 + available1 > 0
    requires used2 + available2 == used1 + available1
    requires used1 <= used2
    ensures Color(used1, available1) != Primary && Color(used2, available2) != Primary
    ensures Severity(Color(used1, available1)) <= Severity(Color(used2, available2))
  {
    ColorBands(used1, available1);
    ColorBands(used2, available2);
  }
}
