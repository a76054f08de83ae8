/** The dashboard's bar chart widget: how many bars fit, how each value is
    scaled into eighths of a cell, which level every cell of a bar gets,
    and where the value and tag labels go. */
module Chart {
  import opened Common

  /** A rectangle of terminal cells; its far edges fit in a u16. */
  datatype Rect = Rect(x: nat, y: nat, width: nat, height: nat) {
    predicate Valid()
    {
      x + width < U16_LIMIT && y + height < U16_LIMIT
    }

    predicate Contains(px: int, py: int)
    {
      x <= px < x + width && y <= py < y + height
    }

    predicate Covers(r: Rect)
    {
      x <= r.x && r.x + r.width <= x + width && y <= r.y && r.y + r.height <= y + height
    }
  }

  /** A bar's tag label and its display width (given, not computed). */
  datatype Label = Label(text: string, width: nat)

  datatype Bar = Bar(tag: Label, value: nat)

  /** A string written at a cell, optionally cut to `limit` columns. */
  datatype TextWrite = TextWrite(x: int, y: int, text: string, limit: Option<nat>)

  /** The bar set has nine symbols: level 0 is empty, 1 to 7 are that many
      eighths of a cell, 8 is a full cell. */
  const FULL: nat := 8

  /** The terminal buffer as far as the chart uses it: a grid of cells over
      `area`, each showing a bar level, and the strings written, in order. */
  class Buffer {
    const area: Rect
    const levels: array2<nat>
    var texts: seq<TextWrite>

    ghost predicate Valid()
    {
      levels.Length0 == area.width && levels.Length1 == area.height
    }

    constructor (area: Rect)
      ensures Valid() && this.area == area && texts == [] && fresh(levels)
      ensures forall x, y | area.Contains(x, y) :: At(x, y) == 0
    {
      this.area := area;
      levels := new nat[area.width, area.height]((a, b) => 0);
      texts := [];
    }

    /** The bar level of cell (x, y): the bar layer, under any text written over it. */
    function At(x: int, y: int): nat
      reads levels
      requires Valid() && area.Contains(x, y)
    {
      levels[x - area.x, y - area.y]
    }

    /** `get_mut(x, y).set_symbol(..)`: cell (x, y), and no other, now shows `level`. */
    method Set(x: int, y: int, level: nat)
      requires Valid() && area.Contains(x, y)
      modifies levels
      ensures forall x', y' | area.Contains(x', y') :: At(x', y') == if x' == x && y' == y then level else old(At(x', y'))
    {
      levels[x - area.x, y - area.y] := level;
    }
  }

  // ---------------------------------------------------------------------
  // Specification of the geometry

  /** The largest value in `data`, or 0 when there is none. */
  function MaxValue(data: seq<Bar>): (m: nat)
    ensures forall i | 0 <= i < |data| :: data[i].value <= m
    ensures data == [] ==> m == 0
    ensures data != [] ==> exists i | 0 <= i < |data| :: data[i].value == m
    decreases |data|
  {
    if data == [] then 0
    else
      var rest := MaxValue(data[1..]);
      assert forall i | 1 <= i < |data| :: data[i] == data[1..][i - 1];
      if data[0].value >= rest then data[0].value else rest
  }

  /** The value a bar needs to reach the full height: the explicit maximum
      if one is set, else the largest value. */
  function EffectiveMax(max: Option<nat>, data: seq<Bar>): (m: nat)
    ensures max.Some? ==> m == max.value
    ensures max.None? ==> forall i | 0 <= i < |data| :: data[i].value <= m
    ensures max.None? && data == [] ==> m == 0
    ensures max.None? && data != [] ==> exists i | 0 <= i < |data| :: data[i].value == m
  {
    match max
    case Some(m) => m
    case None => MaxValue(data)
  }

  /** `max.max(1)`: the divisor, never zero. */
  function Divisor(max: nat): (d: nat)
    ensures d >= 1 && d >= max && (max >= 1 ==> d == max)
    ensures max == 0 ==> d == 1
  {
    if max >= 1 then max else 1
  }

  /** How many bars are drawn: as many as fit in the width, at most all. */
  function BarCount(width: nat, stride: nat, n: nat): (count: nat)
    requires stride > 0
    ensures count <= n && count * stride <= width
    ensures count == n || (count + 1) * stride > width
  {
    Min(width / stride, n)
  }

  /** A value in eighths of a cell over `rows` rows. */
  function Scaled(value: nat, rows: nat, max: nat): (s: nat)
    ensures s * Divisor(max) <= value * rows * 8 < (s + 1) * Divisor(max)
  {
    value * rows * 8 / Divisor(max)
  }

  /** Every value of `data` scaled in eighths over `rows` rows. */
  function ScaledValues(data: seq<Bar>, rows: nat, max: nat): (scaled: seq<nat>)
    ensures |scaled| == |data|
    ensures forall k | 0 <= k < |data| :: scaled[k] == Scaled(data[k].value, rows, max)
  {
    seq(|data|, k requires 0 <= k < |data| => Scaled(data[k].value, rows, max))
  }

  /** What is left of `scaled` eighths after `k` full rows. */
  function Remaining(scaled: nat, k: int): nat
  {
    if scaled <= 8 * k then 0 else scaled - 8 * k
  }

  /** The level of the `k`-th row above the bottom of a bar of `scaled` eighths. */
  function Level(scaled: nat, k: int): (level: nat)
    ensures level <= FULL
    ensures level == Min(FULL, Remaining(scaled, k))
  {
    var rem := Remaining(scaled, k);
    if rem < FULL then rem else FULL
  }

  /** The leftmost column of bar `i`: one stride right of bar `i - 1`. */
  function BarLeft(area: Rect, barWidth: nat, barGap: nat, i: nat): int
    decreases i
  {
    if i == 0 then area.x else BarLeft(area, barWidth, barGap, i - 1) + (barWidth + barGap)
  }

  predicate InBox(x0: int, x1: int, y0: int, y1: int, x: int, y: int)
  {
    x0 <= x < x1 && y0 <= y < y1
  }

  /** Cell (x, y) lies in the columns of bar `i`, on a row above the last one. */
  predicate InBar(area: Rect, barWidth: nat, barGap: nat, i: nat, x: int, y: int)
  {
    var left := BarLeft(area, barWidth, barGap, i);
    InBox(left, left + barWidth, area.y, area.y + area.height - 1, x, y)
  }

  /** What cell (x, y) shows once the first `n` bars are painted over a
      cell that showed `prev`: the level of its row in the last bar that
      covers it, or `prev` when none does. Bar `i` is `scaled[i]` eighths
      high and its bottom row is the row above the last one. */
  function Painted(area: Rect, barWidth: nat, barGap: nat, scaled: seq<nat>, n: nat, x: int, y: int, prev: nat): nat
    requires n <= |scaled|
    decreases n
  {
    if n == 0 then prev
    else if InBar(area, barWidth, barGap, n - 1, x, y) then Level(scaled[n - 1], area.y + area.height - 2 - y)
    else Painted(area, barWidth, barGap, scaled, n - 1, x, y, prev)
  }

  /** The same for the first `n` bars of `data` scaled against `max`. */
  function ChartCell(area: Rect, barWidth: nat, barGap: nat, data: seq<Bar>, max: nat, n: nat, x: int, y: int, prev: nat): nat
    requires area.height >= 1 && n <= |data|
  {
    Painted(area, barWidth, barGap, ScaledValues(data, area.height - 1, max), n, x, y, prev)
  }

  /** The decimal digit `d`. */
  function DigitChar(d: nat): char
    requires d < 10
  {
    "0123456789"[d]
  }

  /** `format!("{value}")`: the decimal representation of `n`. */
  function Digits(n: nat): (s: string)
    ensures |s| >= 1
    ensures forall i | 0 <= i < |s| :: '0' <= s[i] <= '9'
    ensures n > 0 ==> s[0] != '0'
    ensures n == 0 ==> s == "0"
    decreases n
  {
    if n < 10 then [DigitChar(n)] else Digits(n / 10) + [DigitChar(n % 10)]
  }

  /** The number a string of decimal digits stands for. */
  function DigitsValue(s: string): nat
    decreases |s|
  {
    if s == [] then 0
    else
      var c := s[|s| - 1];
      DigitsValue(s[..|s| - 1]) * 10 + (if '0' <= c <= '9' then c as int - '0' as int else 0)
  }

  lemma DigitCharValue(d: nat)
    requires d < 10
    ensures '0' <= DigitChar(d) <= '9' && DigitChar(d) as int - '0' as int == d
  {
  }

  lemma {:induction false} DigitsRoundTrip(n: nat)
    ensures DigitsValue(Digits(n)) == n
    decreases n
  {
    if n < 10 {
      DigitCharValue(n);
    } else {
      var s := Digits(n);
      assert s == Digits(n / 10) + [DigitChar(n % 10)];
      assert s[..|s| - 1] == Digits(n / 10);
      DigitsRoundTrip(n / 10);
      DigitCharValue(n % 10);
    }
  }

  /** The column at which a text `width` wide starts when centred in the
      `space` columns from `x0`, the odd column going to the right. */
  function Centred(x0: int, space: nat, width: nat): (x: int)
    requires width <= space
    ensures x0 <= x && x + width <= x0 + space
    ensures x - x0 <= x0 + space - (x + width) <= x - x0 + 1
  {
    x0 + (space - width) / 2
  }

  /** The labels of bar `i`: its value, centred on the row above the tag
      row when it is narrower than the bar, then its tag, centred on the
      last row and cut to the bar's width. */
  function BarLabels(area: Rect, barWidth: nat, barGap: nat, i: nat, bar: Bar): (ls: seq<TextWrite>)
    requires area.height >= 2 && bar.tag.width <= barWidth
    ensures |ls| == (if |Digits(bar.value)| < barWidth then 2 else 1)
    ensures ls[|ls| - 1].text == bar.tag.text && ls[|ls| - 1].limit == Some(barWidth)
  {
    var x0 := BarLeft(area, barWidth, barGap, i);
    var valueLabel := Digits(bar.value);
    var bottom := area.y + area.height;
    (if |valueLabel| < barWidth then [TextWrite(Centred(x0, barWidth, |valueLabel|), bottom - 2, valueLabel, None)] else [])
      + [TextWrite(Centred(x0, barWidth, bar.tag.width), bottom - 1, bar.tag.text, Some(barWidth))]
  }

  /** Every tag label is at most `barWidth` columns wide. */
  predicate TagsFit(bars: seq<Bar>, barWidth: nat)
  {
    forall k | 0 <= k < |bars| :: bars[k].tag.width <= barWidth
  }

  /** Every value times `rows` times eight fits in a u64. */
  predicate ValuesFit(bars: seq<Bar>, rows: nat)
  {
    forall k | 0 <= k < |bars| :: bars[k].value * rows * 8 < U64_LIMIT
  }

  /** The labels of the first `n` bars, in write order. */
  function LabelWrites(area: Rect, barWidth: nat, barGap: nat, bars: seq<Bar>, n: nat): (ws: seq<TextWrite>)
    requires area.height >= 2 && n <= |bars| && TagsFit(bars, barWidth)
    ensures n <= |ws| <= 2 * n
    decreases n
  {
    if n == 0 then []
    else LabelWrites(area, barWidth, barGap, bars, n - 1) + BarLabels(area, barWidth, barGap, n - 1, bars[n - 1])
  }

  // ---------------------------------------------------------------------
  // The widget

  class BarChart {
    var barWidth: nat
    var barGap: nat
    var max: Option<nat>
    var data: seq<Bar>

    /** `BarChart::new`: bars one cell wide, one cell apart, no explicit maximum. */
    constructor (data: seq<Bar>)
      ensures barWidth == 1 && barGap == 1 && max == None && this.data == data
    {
      barWidth := 1;
      barGap := 1;
      max := None;
      this.data := data;
    }

    method SetData(data: seq<Bar>)
      modifies this
      ensures this.data == data && barWidth == old(barWidth) && barGap == old(barGap) && max == old(max)
    {
      this.data := data;
    }

    method SetMax(max: nat)
      requires max < U64_LIMIT
      modifies this
      ensures this.max == Some(max) && data == old(data) && barWidth == old(barWidth) && barGap == old(barGap)
    {
      this.max := Some(max);
    }

    method SetBarWidth(width: nat)
      requires width < U16_LIMIT
      modifies this
      ensures barWidth == width && data == old(data) && barGap == old(barGap) && max == old(max)
    {
      barWidth := width;
    }

    method SetBarGap(gap: nat)
      requires gap < U16_LIMIT
      modifies this
      ensures barGap == gap && data == old(data) && barWidth == old(barWidth) && max == old(max)
    {
      barGap := gap;
    }

    /** The u16 and u64 arithmetic of `render` stays in range once there
        are at least two rows (with fewer, `render` returns first): the
        stride is a non-zero u16, every drawn label fits its bar, and every
        drawn value times the row count times eight fits in a u64. */
    predicate SafeFor(area: Rect)
      reads this
    {
      && area.Valid()
      && (area.height >= 2 ==>
            0 < barWidth + barGap < U16_LIMIT &&
            var drawn := data[..BarCount(area.width, barWidth + barGap, |data|)];
            TagsFit(drawn, barWidth) && ValuesFit(drawn, area.height - 1))
    }

    /** `BarChart::render` into the area its block leaves free, inside the buffer. */
    method Render(area: Rect, buf: Buffer)
      requires SafeFor(area)
      requires buf.Valid() && buf.area.Covers(area)
      modifies buf, buf.levels
      ensures area.height < 2 ==> unchanged(buf.levels) && buf.texts == old(buf.texts)
      ensures area.height >= 2 ==>
        forall x, y | buf.area.Contains(x, y) ::
          buf.At(x, y) == ChartCell(area, barWidth, barGap, data, EffectiveMax(max, data), BarCount(area.width, barWidth + barGap, |data|), x, y, old(buf.At(x, y)))
      ensures area.height >= 2 ==>
        buf.texts == old(buf.texts) + LabelWrites(area, barWidth, barGap, data[..BarCount(area.width, barWidth + barGap, |data|)], BarCount(area.width, barWidth + barGap, |data|))
    {
      if area.height < 2 {
        return;
      }
      var bars := data;
      var peak := EffectiveMax(max, bars);
      var stride := barWidth + barGap;
      var count := BarCount(area.width, stride, |bars|);
      bars := bars[..count];
      PaintBars(buf, area, barWidth, barGap, data, bars, peak);
      WriteLabels(buf, area, barWidth, barGap, bars);
    }
  }

  /** The bar loop of `render`: bar `i` is painted `i` strides from the left. */
  method PaintBars(buf: Buffer, area: Rect, barWidth: nat, barGap: nat, data: seq<Bar>, bars: seq<Bar>, peak: nat)
    requires buf.Valid() && buf.area.Covers(area)
    requires area.height >= 2 && bars <= data && |bars| * (barWidth + barGap) <= area.width
    modifies buf.levels
    ensures forall x, y | buf.area.Contains(x, y) ::
      buf.At(x, y) == ChartCell(area, barWidth, barGap, data, peak, |bars|, x, y, old(buf.At(x, y)))
  {
    var stride := barWidth + barGap;
    var rows := area.height - 1;
    ghost var scaled := ScaledValues(data, rows, peak);
    var i := 0;
    while i < |bars|
      invariant 0 <= i <= |bars|
      invariant forall x, y | buf.area.Contains(x, y) ::
        buf.At(x, y) == Painted(area, barWidth, barGap, scaled, i, x, y, old(buf.At(x, y)))
    {
      var value := Scaled(bars[i].value, rows, peak);
      assert value == scaled[i] by {
        assert bars[i] == data[i];
      }
      BarLeftProduct(area, barWidth, barGap, i);
      BarsInsideArea(area, barWidth, barGap, |bars|, i);
      PaintBar(buf, area.x + i * stride, barWidth, area.y, rows, value);
      i := i + 1;
    }
  }

  /** The row loop of `render` for one bar of `scaled` eighths whose
      columns start at `x0`: from the bottom row up, each row gets the
      remaining eighths capped at a full cell, then a full cell is taken
      off what remains. */
  method PaintBar(buf: Buffer, x0: int, barWidth: nat, y0: int, rows: nat, scaled: nat)
    requires buf.Valid()
    requires buf.area.x <= x0 && x0 + barWidth <= buf.area.x + buf.area.width
    requires buf.area.y <= y0 && y0 + rows <= buf.area.y + buf.area.height
    modifies buf.levels
    ensures forall x, y | buf.area.Contains(x, y) ::
      buf.At(x, y) == if InBox(x0, x0 + barWidth, y0, y0 + rows, x, y) then Level(scaled, y0 + rows - 1 - y) else old(buf.At(x, y))
  {
    var value := scaled;
    var j := rows;
    while j > 0
      invariant 0 <= j <= rows
      invariant value == Remaining(scaled, rows - j)
      invariant forall x, y | buf.area.Contains(x, y) ::
        buf.At(x, y) == if InBox(x0, x0 + barWidth, y0 + j, y0 + rows, x, y) then Level(scaled, y0 + rows - 1 - y) else old(buf.At(x, y))
    {
      j := j - 1;
      var level := if value < FULL then value else FULL;
      assert level == Level(scaled, y0 + rows - 1 - (y0 + j));
      var x := 0;
      while x < barWidth
        invariant 0 <= x <= barWidth
        invariant forall x', y | buf.area.Contains(x', y) ::
          buf.At(x', y) == if InBox(x0, x0 + barWidth, y0 + j + 1, y0 + rows, x', y) || InBox(x0, x0 + x, y0 + j, y0 + j + 1, x', y)
                           then Level(scaled, y0 + rows - 1 - y) else old(buf.At(x', y))
      {
        buf.Set(x0 + x, y0 + j, level);
        x := x + 1;
      }
      if value > FULL {
        value := value - FULL;
      } else {
        value := 0;
      }
    }
  }

  /** The label loop of `render`, after all bars are painted. */
  method WriteLabels(buf: Buffer, area: Rect, barWidth: nat, barGap: nat, bars: seq<Bar>)
    requires area.height >= 2 && TagsFit(bars, barWidth)
    modifies buf
    ensures buf.texts == old(buf.texts) + LabelWrites(area, barWidth, barGap, bars, |bars|)
  {
    var i := 0;
    assert old(buf.texts) + [] == old(buf.texts);
    while i < |bars|
      invariant 0 <= i <= |bars|
      invariant buf.texts == old(buf.texts) + LabelWrites(area, barWidth, barGap, bars, i)
    {
      WriteBarLabels(buf, area, barWidth, barGap, i, bars[i]);
      i := i + 1;
    }
  }

  /** One pass of the label loop: the labels of bar `i`, `i` strides from the left. */
  method WriteBarLabels(buf: Buffer, area: Rect, barWidth: nat, barGap: nat, i: nat, bar: Bar)
    requires area.height >= 2 && bar.tag.width <= barWidth
    modifies buf
    ensures buf.texts == old(buf.texts) + BarLabels(area, barWidth, barGap, i, bar)
  {
    var x0 := area.x + i * (barWidth + barGap);
    BarLeftProduct(area, barWidth, barGap, i);
    var valueLabel := Digits(bar.value);
    var width := |valueLabel|;
    if width < barWidth {
      buf.texts := buf.texts + [TextWrite(Centred(x0, barWidth, width), area.y + area.height - 2, valueLabel, None)];
    }
    var tag := bar.tag;
    buf.texts := buf.texts + [TextWrite(Centred(x0, barWidth, tag.width), area.y + area.height - 1, tag.text, Some(barWidth))];
  }

  // ---------------------------------------------------------------------
  // Properties of the chart

  lemma {:induction false} MulAtLeast(m: int, d: nat)
    requires m >= 1
    ensures m * d >= d
    decreases m
  {
    if m > 1 {
      MulAtLeast(m - 1, d);
    }
  }

  /** Integer division by a positive `d` is at most `b` when the dividend
      is at most `b * d`, and exactly `b` when it equals `b * d`. */
  lemma DivBound(a: nat, b: nat, d: nat)
    requires 0 < d && a <= b * d
    ensures a / d <= b
    ensures a == b * d ==> a / d == b
  {
    var q := a / d;
    assert a == q * d + a % d;
    if q > b {
      MulAtLeast(q - b, d);
    }
    if a == b * d && q < b {
      MulAtLeast(b - q, d);
    }
  }

  /** The left edge as `render` computes it: `i` strides from the area's left. */
  lemma {:induction false} BarLeftProduct(area: Rect, barWidth: nat, barGap: nat, i: nat)
    ensures BarLeft(area, barWidth, barGap, i) == area.x + i * (barWidth + barGap)
    decreases i
  {
    if i > 0 {
      BarLeftProduct(area, barWidth, barGap, i - 1);
    }
  }

  lemma {:induction false} BarLeftMonotone(area: Rect, barWidth: nat, barGap: nat, i: nat, k: nat)
    requires i <= k
    ensures BarLeft(area, barWidth, barGap, i) <= BarLeft(area, barWidth, barGap, k)
    decreases k
  {
    if i < k {
      BarLeftMonotone(area, barWidth, barGap, i, k - 1);
    }
  }

  /** A later bar starts at or right of the end of an earlier one, so no
      two bars share a cell. */
  lemma {:induction false} BarsApart(area: Rect, barWidth: nat, barGap: nat, i: nat, k: nat)
    requires i < k
    ensures BarLeft(area, barWidth, barGap, i) + barWidth <= BarLeft(area, barWidth, barGap, k)
    ensures forall x, y :: !(InBar(area, barWidth, barGap, i, x, y) && InBar(area, barWidth, barGap, k, x, y))
    decreases k
  {
    if i < k - 1 {
      BarsApart(area, barWidth, barGap, i, k - 1);
    }
  }

  /** Every bar that fits in the width lies inside the area. */
  lemma BarsInsideArea(area: Rect, barWidth: nat, barGap: nat, n: nat, i: nat)
    requires i < n && n * (barWidth + barGap) <= area.width
    ensures area.x <= BarLeft(area, barWidth, barGap, i)
    ensures BarLeft(area, barWidth, barGap, i) + barWidth <= area.x + area.width
  {
    BarLeftMonotone(area, barWidth, barGap, 0, i);
    BarsApart(area, barWidth, barGap, i, n);
    BarLeftProduct(area, barWidth, barGap, n);
  }

  /** A cell inside bar `i` shows the level of its row within that bar,
      whatever it showed before and whatever the other bars are. */
  lemma {:induction false} PaintedCovered(area: Rect, barWidth: nat, barGap: nat, scaled: seq<nat>, n: nat, i: nat, x: int, y: int, prev: nat)
    requires n <= |scaled| && i < n && InBar(area, barWidth, barGap, i, x, y)
    ensures Painted(area, barWidth, barGap, scaled, n, x, y, prev) == Level(scaled[i], area.y + area.height - 2 - y)
    decreases n
  {
    if i < n - 1 {
      BarsApart(area, barWidth, barGap, i, n - 1);
      PaintedCovered(area, barWidth, barGap, scaled, n - 1, i, x, y, prev);
    }
  }

  /** A cell that no drawn bar covers keeps what it showed. */
  lemma {:induction false} PaintedUncovered(area: Rect, barWidth: nat, barGap: nat, scaled: seq<nat>, n: nat, x: int, y: int, prev: nat)
    requires n <= |scaled|
    requires forall i | 0 <= i < n :: !InBar(area, barWidth, barGap, i, x, y)
    ensures Painted(area, barWidth, barGap, scaled, n, x, y, prev) == prev
    decreases n
  {
    if n > 0 {
      PaintedUncovered(area, barWidth, barGap, scaled, n - 1, x, y, prev);
    }
  }

  /** The gap after bar `i` and the last row of the area keep what they showed. */
  lemma GapsKept(area: Rect, barWidth: nat, barGap: nat, scaled: seq<nat>, n: nat, i: nat, x: int, y: int, prev: nat)
    requires n <= |scaled|
    requires (BarLeft(area, barWidth, barGap, i) + barWidth <= x < BarLeft(area, barWidth, barGap, i + 1))
               || y == area.y + area.height - 1
    ensures Painted(area, barWidth, barGap, scaled, n, x, y, prev) == prev
  {
    forall k | 0 <= k < n
      ensures !InBar(area, barWidth, barGap, k, x, y)
    {
      if k <= i {
        BarLeftMonotone(area, barWidth, barGap, k, i);
      } else {
        BarLeftMonotone(area, barWidth, barGap, i + 1, k);
      }
    }
    PaintedUncovered(area, barWidth, barGap, scaled, n, x, y, prev);
  }

  /** Column `offset` of bar `i`, row `j` from the top, shows the level of
      row `rows - 1 - j` from the bar's bottom. */
  lemma BarCell(area: Rect, barWidth: nat, barGap: nat, data: seq<Bar>, peak: nat, n: nat, i: nat, offset: nat, j: nat, prev: nat)
    requires area.height >= 2 && n <= |data|
    requires i < n && offset < barWidth && j < area.height - 1
    ensures ChartCell(area, barWidth, barGap, data, peak, n, BarLeft(area, barWidth, barGap, i) + offset, area.y + j, prev)
              == Level(Scaled(data[i].value, area.height - 1, peak), area.height - 2 - j)
  {
    PaintedCovered(area, barWidth, barGap, ScaledValues(data, area.height - 1, peak), n, i, BarLeft(area, barWidth, barGap, i) + offset, area.y + j, prev);
  }

  /** Within a bar, a cell never shows more than the cell below it. */
  lemma BarNonIncreasingUpward(area: Rect, barWidth: nat, barGap: nat, data: seq<Bar>, peak: nat, n: nat, i: nat, offset: nat, j: nat, j': nat, prev: nat, prev': nat)
    requires area.height >= 2 && n <= |data|
    requires i < n && offset < barWidth && j < j' < area.height - 1
    ensures ChartCell(area, barWidth, barGap, data, peak, n, BarLeft(area, barWidth, barGap, i) + offset, area.y + j, prev)
              <= ChartCell(area, barWidth, barGap, data, peak, n, BarLeft(area, barWidth, barGap, i) + offset, area.y + j', prev')
  {
    BarCell(area, barWidth, barGap, data, peak, n, i, offset, j, prev);
    BarCell(area, barWidth, barGap, data, peak, n, i, offset, j', prev');
  }

  /** A value no larger than the maximum is scaled to at most one full cell
      per row, so no bar is cut off at the top; a value equal to a positive
      maximum is scaled to exactly one full cell per row. */
  lemma ScaledFits(value: nat, rows: nat, peak: nat)
    requires value <= peak
    ensures Scaled(value, rows, peak) <= 8 * rows
    ensures value == peak > 0 ==> Scaled(value, rows, peak) == 8 * rows
  {
    var d := Divisor(peak);
    assert value * rows * 8 == value * (rows * 8);
    assert value * (rows * 8) <= d * (rows * 8);
    DivBound(value * rows * 8, rows * 8, d);
  }

  /** A bar whose value equals a positive maximum fills every row of its column. */
  lemma MaxBarFull(area: Rect, barWidth: nat, barGap: nat, data: seq<Bar>, peak: nat, n: nat, i: nat, offset: nat, j: nat, prev: nat)
    requires area.height >= 2 && n <= |data|
    requires i < n && offset < barWidth && j < area.height - 1
    requires data[i].value == peak > 0
    ensures ChartCell(area, barWidth, barGap, data, peak, n, BarLeft(area, barWidth, barGap, i) + offset, area.y + j, prev) == FULL
  {
    BarCell(area, barWidth, barGap, data, peak, n, i, offset, j, prev);
    ScaledFits(peak, area.height - 1, peak);
  }

  /** Without an explicit maximum, the tallest bar reaches the top row. */
  lemma TallestBarReachesTop(area: Rect, barWidth: nat, barGap: nat, data: seq<Bar>, n: nat, i: nat, offset: nat, prev: nat)
    requires area.height >= 2 && n <= |data|
    requires i < n && offset < barWidth
    requires data[i].value == MaxValue(data) > 0
    ensures ChartCell(area, barWidth, barGap, data, EffectiveMax(None, data), n, BarLeft(area, barWidth, barGap, i) + offset, area.y, prev) == FULL
  {
    MaxBarFull(area, barWidth, barGap, data, MaxValue(data), n, i, offset, 0, prev);
  }

  /** The labels of bar `i` stay inside its columns: the value, when shown,
      is centred on the row above the tag row (the last bar row), and the
      tag is centred on the last row of the area and cut to the bar width. */
  lemma BarLabelsPlaced(area: Rect, barWidth: nat, barGap: nat, i: nat, bar: Bar)
    requires area.height >= 2 && bar.tag.width <= barWidth
    ensures var ls := BarLabels(area, barWidth, barGap, i, bar);
      var x0 := BarLeft(area, barWidth, barGap, i);
      && |ls| == (if |Digits(bar.value)| < barWidth then 2 else 1)
      && ls[|ls| - 1].text == bar.tag.text && ls[|ls| - 1].limit == Some(barWidth)
      && ls[|ls| - 1].y == area.y + area.height - 1
      && x0 <= ls[|ls| - 1].x && ls[|ls| - 1].x + bar.tag.width <= x0 + barWidth
      && ls[|ls| - 1].x - x0 <= x0 + barWidth - (ls[|ls| - 1].x + bar.tag.width) <= ls[|ls| - 1].x - x0 + 1
      && (|ls| == 2 ==>
            && ls[0].text == Digits(bar.value) && ls[0].limit == None
            && ls[0].y == area.y + area.height - 2
            && x0 <= ls[0].x && ls[0].x + |ls[0].text| < x0 + barWidth
            && ls[0].x - x0 <= x0 + barWidth - (ls[0].x + |ls[0].text|) <= ls[0].x - x0 + 1)
  {
  }
}
