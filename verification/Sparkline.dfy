/** Resampling a bar sparkline to a width: each column keeps the highest bar of its bucket, so a short
    onset survives however many bars fall into one column. */
module Sparkline {
  import opened Division

  /** The octile alphabet, lowest bar first. */
  const BARS: string := "\U{2581}\U{2582}\U{2583}\U{2584}\U{2585}\U{2586}\U{2587}\U{2588}"

  function Position(bar: char, i: nat): nat
    requires i <= |BARS|
    decreases |BARS| - i
  {
    if i == |BARS| then 0 else if BARS[i] == bar then i else Position(bar, i + 1)
  }

  /** A glyph outside the alphabet reads as the floor. */
  function Level(bar: char): (level: nat)
    ensures level < 8
    ensures BARS[level] == bar || (bar !in BARS && level == 0)
  {
    LevelFacts(bar, 0);
    Position(bar, 0)
  }

  lemma LevelFacts(bar: char, i: nat)
    requires i <= 8
    ensures |BARS| == 8
    ensures Position(bar, i) < 8 && (BARS[Position(bar, i)] == bar || (Position(bar, i) == 0 && bar !in BARS[i..]))
    decreases 8 - i
  {
    if i < 8 && BARS[i] != bar { LevelFacts(bar, i + 1); }
  }

  lemma BarHasItsLevel(level: nat)
    requires level < 8
    ensures Level(BARS[level]) == level
  {
    BarsAreDistinct(level, Level(BARS[level]));
  }

  lemma BarsAreDistinct(i: nat, j: nat)
    requires i < 8 && j < 8 && BARS[i] == BARS[j]
    ensures i == j
  {
    assert forall k :: 0 <= k < 8 ==> BARS[k] == (0x2581 + k) as char;
    assert BARS[i] == (0x2581 + i) as char && BARS[j] == (0x2581 + j) as char;
  }

  // ---- buckets ----------------------------------------------------------------------------------

  function Start(bucket: nat, n: nat, width: nat): nat
    requires width > 0
  {
    bucket * n / width
  }

  lemma StartGrows(a: nat, b: nat, n: nat, width: nat)
    requires width > 0 && a <= b
    ensures Start(a, n, width) <= Start(b, n, width)
  {
    Times(a, b, n);
    QuotientGrows(a * n, b * n, width);
  }

  lemma BucketsSpan(n: nat, width: nat)
    requires width > 0
    ensures Start(0, n, width) == 0 && Start(width, n, width) == n
  {
    Commute(width, n);
    QuotientIs(width * n, n, width);
    QuotientIs(0, 0, width);
  }

  lemma Commute(a: nat, b: nat)
    ensures a * b == b * a
  {
  }

  lemma StartIsInside(bucket: nat, n: nat, width: nat)
    requires bucket < width && n > 0
    ensures Start(bucket, n, width) < n
  {
    assert bucket * n < width * n;
    BelowDivides(bucket * n, n, width);
  }

  lemma BelowDivides(x: nat, n: nat, width: nat)
    requires width > 0 && x < width * n
    ensures x / width < n
  {
    Quotient(x, width);
    Commute(width, n);
    if n <= x / width { Times(n, x / width, width); }
  }

  /** Every position falls into a bucket. */
  lemma {:induction false} SomeBucketHolds(p: nat, n: nat, width: nat, from: nat) returns (b: nat)
    requires p < n && from < width && Start(from, n, width) <= p
    ensures b < width && Start(b, n, width) <= p < Start(b + 1, n, width)
    decreases width - from
  {
    if p < Start(from + 1, n, width) {
      b := from;
    } else {
      BucketsSpan(n, width);
      b := SomeBucketHolds(p, n, width, from + 1);
    }
  }

  // ---- resampling -----------------------------------------------------------------------------------

  /** `level` is the highest among the bars of `bars`. */
  ghost predicate Highest(level: nat, bars: string) {
    (exists i :: 0 <= i < |bars| && Level(bars[i]) == level) && forall i :: 0 <= i < |bars| ==> Level(bars[i]) <= level
  }

  /** The bars a column stands for: its bucket, or where that is empty the bar it starts at. */
  function Bucket(bars: string, b: nat, width: nat): string
    requires b < width && bars != ""
  {
    StartGrows(b, b + 1, |bars|, width);
    StartGrows(b + 1, width, |bars|, width);
    BucketsSpan(|bars|, width);
    StartIsInside(b, |bars|, width);
    var start, end := Start(b, |bars|, width), Start(b + 1, |bars|, width);
    if start >= end then [bars[start]] else bars[start..end]
  }

  method HighestLevel(bars: string) returns (level: nat)
    requires bars != ""
    ensures level < 8 && Highest(level, bars)
  {
    level := Level(bars[0]);
    for i := 1 to |bars|
      invariant level < 8 && exists k :: 0 <= k < i && Level(bars[k]) == level
      invariant forall k :: 0 <= k < i ==> Level(bars[k]) <= level
    {
      if Level(bars[i]) > level { level := Level(bars[i]); }
    }
  }

  /** As many columns as asked for, each the highest bar of what it stands for. */
  method ResampleMax(bars: string, width: nat) returns (out: string)
    ensures bars == "" ==> out == ""
    ensures bars != "" && width > 0 ==> Shows(out, bars, width)
    ensures width == 0 ==> out == ""
    ensures forall b :: 0 <= b < |out| ==> out[b] in BARS
  {
    var n := |bars|;
    if n == 0 || width == 0 { return ""; }
    out := "";
    hide Level, Bucket, Highest, Start;
    for b := 0 to width
      invariant |out| == b
      invariant forall k :: 0 <= k < b ==> Highest(Level(out[k]), Bucket(bars, k, width)) && out[k] in BARS
    {
      var level := Column(bars, b, width);
      BarHasItsLevel(level);
      out := out + [BARS[level]];
    }
  }

  /** The level of one column. */
  method Column(bars: string, b: nat, width: nat) returns (level: nat)
    requires bars != "" && b < width
    ensures level < 8 && Highest(level, Bucket(bars, b, width))
  {
    hide Level, Bucket, Highest, Start;
    var n := |bars|;
    var start, end := Start(b, n, width), Start(b + 1, n, width);
    StartIsInside(b, n, width);
    EndIsInside(b, n, width);
    BucketIs(bars, b, width);
    if start >= end {
      level := Level(bars[if start < n - 1 then start else n - 1]);
      OneIsHighest(bars[start]);
    } else {
      level := HighestLevel(bars[start..end]);
    }
  }

  lemma EndIsInside(b: nat, n: nat, width: nat)
    requires b < width
    ensures Start(b, n, width) <= Start(b + 1, n, width) <= n
  {
    StartGrows(b, b + 1, n, width);
    StartGrows(b + 1, width, n, width);
    BucketsSpan(n, width);
  }

  lemma BucketIs(bars: string, b: nat, width: nat)
    requires b < width && bars != ""
    ensures var start, end := Start(b, |bars|, width), Start(b + 1, |bars|, width);
      0 <= start <= end <= |bars| && start < |bars|
      && Bucket(bars, b, width) == if start >= end then [bars[start]] else bars[start..end]
  {
    EndIsInside(b, |bars|, width);
    StartIsInside(b, |bars|, width);
  }

  lemma OneIsHighest(bar: char)
    ensures Level(bar) < 8 && Highest(Level(bar), [bar])
  {
    hide Level;
    assert [bar][0] == bar;
    LevelIsSmall(bar);
  }

  lemma LevelIsSmall(bar: char)
    ensures Level(bar) < 8
  {
  }

  /** Each column shows the bars of `bars` it stands for at their highest. */
  ghost predicate Shows(out: string, bars: string, width: nat) {
    bars != "" && |out| == width > 0 && forall b :: 0 <= b < width ==> Highest(Level(out[b]), Bucket(bars, b, width))
  }

  /** `level` is the highest among the bars from `start` up to `end`. */
  ghost predicate HighestBetween(level: nat, bars: string, start: nat, end: nat)
    requires start < end <= |bars|
  {
    && (exists i :: start <= i < end && Level(bars[i]) == level)
    && forall i :: start <= i < end ==> Level(bars[i]) <= level
  }

  /** Column `b` of `width` stands for the bars from `b * n / width` up to `(b + 1) * n / width`, and for
      the first of them at least; a bar outside the alphabet counts as the floor. */
  lemma ColumnShowsItsShare(out: string, bars: string, width: nat, b: nat)
    requires Shows(out, bars, width) && b < width
    ensures var start, end := b * |bars| / width, (b + 1) * |bars| / width;
      && 0 <= start < |bars| && start <= end <= |bars|
      && HighestBetween(Level(out[b]), bars, start, if start < end then end else start + 1)
  {
    hide Level;
    BucketIs(bars, b, width);
    var start, end := Start(b, |bars|, width), Start(b + 1, |bars|, width);
    var bucket := Bucket(bars, b, width);
    assert forall i :: 0 <= i < |bucket| ==> bucket[i] == bars[start + i];
    var i :| 0 <= i < |bucket| && Level(bucket[i]) == Level(out[b]);
    assert Level(bars[start + i]) == Level(out[b]);
    var stop := if start < end then end else start + 1;
    forall k | start <= k < stop ensures Level(bars[k]) <= Level(out[b]) {
      assert bars[k] == bucket[k - start];
    }
  }

  /** No bar is averaged away: it lies in the bucket of a column, which stands at least as high. */
  lemma EveryBarIsCovered(out: string, bars: string, width: nat, p: nat) returns (b: nat)
    requires Shows(out, bars, width) && p < |bars|
    ensures b < width && Start(b, |bars|, width) <= p < Start(b + 1, |bars|, width)
    ensures Level(out[b]) >= Level(bars[p])
  {
    BucketsSpan(|bars|, width);
    b := SomeBucketHolds(p, |bars|, width, 0);
    hide Level, Start;
    BucketIs(bars, b, width);
    var start := Start(b, |bars|, width);
    assert Bucket(bars, b, width)[p - start] == bars[p];
  }

  /** No column is invented: some bar stands exactly as high. */
  lemma EveryColumnIsABar(out: string, bars: string, width: nat, b: nat) returns (p: nat)
    requires Shows(out, bars, width) && b < width
    ensures p < |bars| && Level(out[b]) == Level(bars[p])
  {
    hide Level, Start;
    BucketIs(bars, b, width);
    var start := Start(b, |bars|, width);
    var i :| 0 <= i < |Bucket(bars, b, width)| && Level(Bucket(bars, b, width)[i]) == Level(out[b]);
    p := start + i;
  }

  /** The highest level of the row is the highest level of the columns, stretched or squeezed. */
  lemma HighestIsKept(out: string, bars: string, width: nat, level: nat)
    requires Shows(out, bars, width)
    ensures Highest(level, out) <==> Highest(level, bars)
  {
    hide Level, Bucket;
    if Highest(level, bars) {
      var p :| 0 <= p < |bars| && Level(bars[p]) == level;
      var b := EveryBarIsCovered(out, bars, width, p);
      forall k | 0 <= k < |out| ensures Level(out[k]) <= level {
        var q := EveryColumnIsABar(out, bars, width, k);
      }
    }
    if Highest(level, out) {
      var b :| 0 <= b < |out| && Level(out[b]) == level;
      var p := EveryColumnIsABar(out, bars, width, b);
      forall k | 0 <= k < |bars| ensures Level(bars[k]) <= level {
        var c := EveryBarIsCovered(out, bars, width, k);
      }
    }
  }
}
