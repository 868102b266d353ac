/**
 * The data buffer of the `Line` chart in pkg/static/js/line.js: parallel
 * arrays `data[0]` (x values, timestamps) and `data[1..]` (one per series),
 * kept to the most recent `maxPoints` points by `push`.
 *
 * Chart values are JavaScript numbers; they are modelled as integers, which
 * the buffer only stores and moves.
 */
module Chart {

  /** The effect of `Array.prototype.shift` on an array: its first element, if any, is gone. */
  function Shift(s: seq<int>): seq<int> {
    if s == [] then [] else s[1..]
  }

  /** The value `push(time, ...values)` appends to `data[i]`. */
  function PushedValue(time: int, values: seq<int>, i: nat): int
    requires i <= |values|
  {
    if i == 0 then time else values[i - 1]
  }

  /** Whether `push` drops the front: `data[0]` would exceed `maxPoints` after appending. */
  predicate Overflows(data: seq<seq<int>>, maxPoints: int)
    requires data != []
  {
    |data[0]| + 1 > maxPoints
  }

  /** The buffer after `push(time, ...values)`. */
  function Pushed(data: seq<seq<int>>, maxPoints: int, time: int, values: seq<int>): seq<seq<int>>
    requires |values| < |data|
  {
    seq(|data|, i requires 0 <= i < |data| =>
      if i > |values| then data[i]
      else
        var grown := data[i] + [PushedValue(time, values, i)];
        if Overflows(data, maxPoints) then Shift(grown) else grown)
  }

  /**
   * Every touched array ends with the value pushed onto it, unless dropping
   * the front emptied it (an array that was empty before an overflowing push).
   */
  lemma PushedEndsWithValue(data: seq<seq<int>>, maxPoints: int, time: int, values: seq<int>, i: nat)
    requires |values| < |data| && i <= |values|
    ensures var r := Pushed(data, maxPoints, time, values);
      && (r[i] == [] <==> Overflows(data, maxPoints) && data[i] == [])
      && (r[i] != [] ==> r[i][|r[i]| - 1] == PushedValue(time, values, i))
  {
  }

  /**
   * A touched array keeps its points in order and loses at most its oldest
   * one: it is the old array plus the new value, minus the first element
   * exactly when `data[0]` overflows.
   */
  lemma PushedSlidesWindow(data: seq<seq<int>>, maxPoints: int, time: int, values: seq<int>, i: nat)
    requires |values| < |data| && i <= |values|
    ensures var r := Pushed(data, maxPoints, time, values);
      var grown := data[i] + [PushedValue(time, values, i)];
      r[i] == grown[(if Overflows(data, maxPoints) then 1 else 0)..]
  {
  }

  /** Arrays past the last series given a value are left alone. */
  lemma PushedLeavesRest(data: seq<seq<int>>, maxPoints: int, time: int, values: seq<int>)
    requires |values| < |data|
    ensures var r := Pushed(data, maxPoints, time, values);
      |r| == |data| && forall i :: |values| < i < |data| ==> r[i] == data[i]
  {
  }

  /** A buffer within `maxPoints` stays within it; below it, nothing is dropped. */
  lemma PushedKeepsBound(data: seq<seq<int>>, maxPoints: int, time: int, values: seq<int>)
    requires |values| < |data|
    ensures var r := Pushed(data, maxPoints, time, values);
      && (|data[0]| <= maxPoints ==> |r[0]| <= maxPoints)
      && (!Overflows(data, maxPoints) ==> |r[0]| == |data[0]| + 1)
  {
  }

  /** A push of one value per series keeps all arrays the same length. */
  lemma PushedKeepsEqualLengths(data: seq<seq<int>>, maxPoints: int, time: int, values: seq<int>)
    requires |values| == |data| - 1
    requires forall i :: 0 <= i < |data| ==> |data[i]| == |data[0]|
    ensures var r := Pushed(data, maxPoints, time, values);
      forall i :: 0 <= i < |r| ==> |r[i]| == |r[0]|
  {
  }

  /** Every push of `valuess` (one list of series values per push) fits the buffer. */
  predicate FitsBuffer(data: seq<seq<int>>, valuess: seq<seq<int>>) {
    forall k :: 0 <= k < |valuess| ==> |valuess[k]| < |data|
  }

  /**
   * The buffer after the calls `push(times[k], ...valuess[k])`, in order.
   */
  function PushedAll(data: seq<seq<int>>, maxPoints: int, times: seq<int>, valuess: seq<seq<int>>): (r: seq<seq<int>>)
    requires data != [] && |valuess| == |times| && FitsBuffer(data, valuess)
    ensures |r| == |data|
  {
    if times == [] then data
    else
      var n := |times| - 1;
      Pushed(PushedAll(data, maxPoints, times[..n], valuess[..n]), maxPoints, times[n], valuess[n])
  }

  /** What those calls append to `data[i]`, in order: the timestamps for i == 0, else series i's values. */
  function Column(times: seq<int>, valuess: seq<seq<int>>, i: nat): (c: seq<int>)
    requires |valuess| == |times| && forall k :: 0 <= k < |valuess| ==> i <= |valuess[k]|
    ensures |c| == |times|
  {
    seq(|times|, k requires 0 <= k < |times| => PushedValue(times[k], valuess[k], i))
  }

  function Min(a: int, b: int): int {
    if a <= b then a else b
  }

  lemma ColumnSnoc(times: seq<int>, valuess: seq<seq<int>>, i: nat)
    requires times != [] && |valuess| == |times| && forall k :: 0 <= k < |valuess| ==> i <= |valuess[k]|
    ensures var n := |times| - 1;
      Column(times, valuess, i) == Column(times[..n], valuess[..n], i) + [PushedValue(times[n], valuess[n], i)]
  {
  }

  /** Appending to a window of the last `m` elements and dropping the front on overflow gives the next window. */
  lemma WindowSnoc(c: seq<int>, v: int, m: int)
    requires m >= 1
    ensures var n := |c|;
      (c[n - Min(n, m)..] + [v])[(if Min(n, m) + 1 > m then 1 else 0)..] == (c + [v])[n + 1 - Min(n + 1, m)..]
  {
    var n := |c|;
    if n < m {
      assert c[n - Min(n, m)..] == c;
      assert (c + [v])[n + 1 - Min(n + 1, m)..] == c + [v];
    } else {
      assert Min(n, m) == m && Min(n + 1, m) == m;
      assert (c[n - m..] + [v])[1..] == c[n - m + 1..] + [v];
      assert (c + [v])[n + 1 - m..] == c[n - m + 1..] + [v];
    }
  }

  /** One push moves a window of the last `maxPoints` values on by one value. */
  lemma KeepsRecentStep(before: seq<seq<int>>, maxPoints: int, time: int, values: seq<int>, i: nat, c: seq<int>)
    requires |values| < |before| && i <= |values| && maxPoints >= 1
    requires |before[0]| == Min(|c|, maxPoints) && before[i] == c[|c| - Min(|c|, maxPoints)..]
    ensures Pushed(before, maxPoints, time, values)[i] ==
      (c + [PushedValue(time, values, i)])[|c| + 1 - Min(|c| + 1, maxPoints)..]
  {
    PushedSlidesWindow(before, maxPoints, time, values, i);
    WindowSnoc(c, PushedValue(time, values, i), maxPoints);
  }

  /**
   * Starting from empty arrays, repeated pushes keep exactly the most recent
   * `maxPoints` points, oldest first: the x array its last `maxPoints`
   * timestamps, and every series array that each push gives a value its last
   * `maxPoints` values.
   */
  lemma {:induction false} PushedAllKeepsRecent(data: seq<seq<int>>, maxPoints: int, times: seq<int>, valuess: seq<seq<int>>, i: nat)
    requires data != [] && |valuess| == |times| && FitsBuffer(data, valuess)
    requires i < |data| && forall k :: 0 <= k < |valuess| ==> i <= |valuess[k]|
    requires data[0] == [] && data[i] == [] && maxPoints >= 1
    ensures PushedAll(data, maxPoints, times, valuess)[i] ==
      Column(times, valuess, i)[|times| - Min(|times|, maxPoints)..]
  {
    if times != [] {
      var n := |times| - 1;
      var front, frontValues := times[..n], valuess[..n];
      var before := PushedAll(data, maxPoints, front, frontValues);
      PushedAllKeepsRecent(data, maxPoints, front, frontValues, i);
      PushedAllKeepsRecent(data, maxPoints, front, frontValues, 0);
      ColumnSnoc(times, valuess, i);
      KeepsRecentStep(before, maxPoints, times[n], valuess[n], i, Column(front, frontValues, i));
    }
  }

  /** With one value per series on every push, every array keeps its last `maxPoints` values. */
  lemma FullPushesKeepRecent(series: nat, maxPoints: int, times: seq<int>, valuess: seq<seq<int>>)
    requires maxPoints >= 1 && |valuess| == |times|
    requires forall k :: 0 <= k < |valuess| ==> |valuess[k]| == series
    ensures var data := seq(series + 1, _ => []);
      var r := PushedAll(data, maxPoints, times, valuess);
      forall i :: 0 <= i <= series ==> r[i] == Column(times, valuess, i)[|times| - Min(|times|, maxPoints)..]
  {
    var data: seq<seq<int>> := seq(series + 1, _ => []);
    forall i | 0 <= i <= series
      ensures PushedAll(data, maxPoints, times, valuess)[i] == Column(times, valuess, i)[|times| - Min(|times|, maxPoints)..]
    {
      PushedAllKeepsRecent(data, maxPoints, times, valuess, i);
    }
  }

  class Line {
    /** `this.chart.data`: x values, then one array per series. */
    var data: seq<seq<int>>
    /** Most points kept; the source derives it from the chart width. */
    var maxPoints: int

    /** The buffer part of the constructor: one empty array for x and one per series. */
    constructor (series: nat, maxPoints: int)
      ensures |data| == series + 1 && forall i :: 0 <= i < |data| ==> data[i] == []
      ensures this.maxPoints == maxPoints
    {
      data := seq(series + 1, _ => []);
      this.maxPoints := maxPoints;
    }

    /**
     * `push(time, ...values)`: append `time` to `data[0]` and `values[i]` to
     * `data[i + 1]`; if `data[0]` then holds more than `maxPoints` points,
     * shift the front off each array just appended to. More values than
     * series would index past the arrays (a TypeError in the source).
     */
    method Push(time: int, values: seq<int>)
      requires |values| < |data|
      modifies this`data
      ensures data == Pushed(old(data), maxPoints, time, values)
    {
      data := data[0 := data[0] + [time]];
      var length := |values|;
      for i := 0 to length
        invariant |data| == |old(data)|
        invariant data[0] == old(data[0]) + [time]
        invariant forall k :: 1 <= k <= i ==> data[k] == old(data[k]) + [values[k - 1]]
        invariant forall k :: i < k < |data| ==> data[k] == old(data[k])
      {
        data := data[i + 1 := data[i + 1] + [values[i]]];
      }
      if |data[0]| > maxPoints {
        ghost var grown := data;
        for i := 0 to 1 + length
          invariant |data| == |grown|
          invariant forall k :: 0 <= k < i ==> data[k] == Shift(grown[k])
          invariant forall k :: i <= k < |data| ==> data[k] == grown[k]
        {
          data := data[i := Shift(data[i])];
        }
      }
    }
  }
}
