/**
 * The last minute of samples behind the two charts: five bounded deques
 * (the times and the four usage series) and the tick counter, and the
 * series the charts are drawn from.
 */
module History {
  import Usage

  /** One minute of one-second samples. */
  const MaxPoints: nat := 60

  /**
   * `d.append(x)` on a `deque(maxlen=maxlen)`: the value goes to the right
   * end and, when the deque is full, the leftmost value is dropped.
   */
  function DequeAppend<T>(buf: seq<T>, x: T, maxlen: nat): (r: seq<T>)
    requires 0 < maxlen && |buf| <= maxlen
    ensures |r| == if |buf| < maxlen then |buf| + 1 else maxlen
    ensures r[|r| - 1] == x
    ensures r == (buf + [x])[|buf| + 1 - |r|..]
  {
    if |buf| < maxlen then buf + [x] else buf[1..] + [x]
  }

  /** Appending the values of `xs` one after another. */
  function AppendAll<T>(buf: seq<T>, xs: seq<T>, maxlen: nat): (r: seq<T>)
    requires 0 < maxlen && |buf| <= maxlen
    ensures |r| <= maxlen
    decreases |xs|
  {
    if |xs| == 0 then buf else AppendAll(DequeAppend(buf, xs[0], maxlen), xs[1..], maxlen)
  }

  /** A full deque always holds the last `maxlen` values ever appended to it. */
  lemma {:induction false} FullDequeWindow<T>(buf: seq<T>, xs: seq<T>, maxlen: nat)
    requires 0 < maxlen && |buf| == maxlen
    ensures AppendAll(buf, xs, maxlen) == (buf + xs)[|xs|..]
    decreases |xs|
  {
    if |xs| == 0 {
      assert buf + xs == buf;
    } else {
      var next, rest := buf[1..] + [xs[0]], xs[1..];
      assert AppendAll(buf, xs, maxlen) == AppendAll(next, rest, maxlen);
      FullDequeWindow(next, rest, maxlen);
      WindowShift(buf, xs);
    }
  }

  /** Dropping the oldest value and appending the next one moves the window over `buf + xs` on by one. */
  lemma WindowShift<T>(buf: seq<T>, xs: seq<T>)
    requires |buf| > 0 && |xs| > 0
    ensures (buf[1..] + [xs[0]] + xs[1..])[|xs| - 1..] == (buf + xs)[|xs|..]
  {
    var all := buf + xs;
    assert buf[1..] + [xs[0]] + xs[1..] == all[1..] by {
      assert xs == [xs[0]] + xs[1..];
    }
  }

  /** `maxlen` consecutive integers ending at `last`. */
  function Consecutive(last: int, maxlen: nat): (r: seq<int>)
    ensures |r| == maxlen
    ensures forall k :: 0 <= k < maxlen ==> r[k] == last - maxlen + 1 + k
  {
    seq(maxlen, k requires 0 <= k < maxlen => last - maxlen + 1 + k)
  }

  /** Appending the next integer to a full window of consecutive integers moves the window on by one. */
  lemma ConsecutiveStep(last: int, maxlen: nat)
    requires 0 < maxlen
    ensures DequeAppend(Consecutive(last, maxlen), last + 1, maxlen) == Consecutive(last + 1, maxlen)
  {
  }

  predicate AllPercent(s: seq<real>) {
    forall k :: 0 <= k < |s| ==> 0.0 <= s[k] <= 100.0
  }

  function Zeros(n: nat): (r: seq<real>)
    ensures |r| == n && AllPercent(r)
    ensures forall k :: 0 <= k < n ==> r[k] == 0.0
  {
    seq(n, _ => 0.0)
  }

  /** The rolling buffers of the monitor window and its tick counter. */
  class RollingHistory {
    var times: seq<int>
    var userCpu: seq<real>
    var othersCpu: seq<real>
    var userMem: seq<real>
    var othersMem: seq<real>
    var currentTime: int

    /**
     * Every buffer holds exactly one minute of values, every value is a
     * percentage, and the times are the minute ending at the counter.
     */
    ghost predicate Valid()
      reads this
    {
      && |userCpu| == MaxPoints && |othersCpu| == MaxPoints
      && |userMem| == MaxPoints && |othersMem| == MaxPoints
      && times == Consecutive(currentTime, MaxPoints)
      && AllPercent(userCpu) && AllPercent(othersCpu)
      && AllPercent(userMem) && AllPercent(othersMem)
    }

    /** The buffers at start-up: times 1..60, every value zero, the counter at 60. */
    constructor()
      ensures Valid()
      ensures currentTime == MaxPoints as int
      ensures forall k :: 0 <= k < MaxPoints ==> times[k] == k + 1
      ensures userCpu == Zeros(MaxPoints) && othersCpu == Zeros(MaxPoints)
      ensures userMem == Zeros(MaxPoints) && othersMem == Zeros(MaxPoints)
    {
      times := Consecutive(MaxPoints, MaxPoints);
      userCpu := Zeros(MaxPoints);
      othersCpu := Zeros(MaxPoints);
      userMem := Zeros(MaxPoints);
      othersMem := Zeros(MaxPoints);
      currentTime := MaxPoints;
    }

    /** One tick: the counter moves on and every buffer takes its new value. */
    method Record(sample: Usage.Sample)
      requires Valid() && Usage.InRange(sample)
      modifies this
      ensures Valid()
      ensures currentTime == old(currentTime) + 1
      ensures times == DequeAppend(old(times), currentTime, MaxPoints)
      ensures userCpu == DequeAppend(old(userCpu), sample.userCpu, MaxPoints)
      ensures othersCpu == DequeAppend(old(othersCpu), sample.othersCpu, MaxPoints)
      ensures userMem == DequeAppend(old(userMem), sample.userMem, MaxPoints)
      ensures othersMem == DequeAppend(old(othersMem), sample.othersMem, MaxPoints)
    {
      currentTime := currentTime + 1;
      ConsecutiveStep(currentTime - 1, MaxPoints);
      times := DequeAppend(times, currentTime, MaxPoints);
      userCpu := DequeAppend(userCpu, sample.userCpu, MaxPoints);
      othersCpu := DequeAppend(othersCpu, sample.othersCpu, MaxPoints);
      userMem := DequeAppend(userMem, sample.userMem, MaxPoints);
      othersMem := DequeAppend(othersMem, sample.othersMem, MaxPoints);
      AppendKeepsPercent(old(userCpu), sample.userCpu);
      AppendKeepsPercent(old(othersCpu), sample.othersCpu);
      AppendKeepsPercent(old(userMem), sample.userMem);
      AppendKeepsPercent(old(othersMem), sample.othersMem);
    }
  }

  lemma AppendKeepsPercent(buf: seq<real>, x: real)
    requires |buf| == MaxPoints && AllPercent(buf) && 0.0 <= x <= 100.0
    ensures AllPercent(DequeAppend(buf, x, MaxPoints))
  {
    var r := DequeAppend(buf, x, MaxPoints);
    forall k | 0 <= k < |r| ensures 0.0 <= r[k] <= 100.0 {
      if k < |r| - 1 {
        assert r[k] == buf[k + 1];
      }
    }
  }

  // ---------------------------------------------------------------------
  // What the charts draw.

  /** `list(reversed(s))` */
  function Reversed<T>(s: seq<T>): (r: seq<T>)
    ensures |r| == |s|
    ensures forall k :: 0 <= k < |s| ==> r[k] == s[|s| - 1 - k]
  {
    seq(|s|, k requires 0 <= k < |s| => s[|s| - 1 - k])
  }

  lemma ReversedTwice<T>(s: seq<T>)
    ensures Reversed(Reversed(s)) == s
  {
  }

  /** `list(range(60, 0, -1))`, the x positions the reversed series are drawn at. */
  function FixedTimes(): (r: seq<int>)
    ensures |r| == MaxPoints
    ensures forall k :: 0 <= k < MaxPoints ==> r[k] == MaxPoints - k
  {
    seq(MaxPoints, k requires 0 <= k < MaxPoints => MaxPoints - k)
  }

  /**
   * The two reversals cancel: the point drawn at x position `x` is the
   * buffer's value at index `x - 1`, so the newest value is drawn at 60
   * and the oldest at 1.
   */
  lemma DrawnAt(buf: seq<real>, k: nat)
    requires |buf| == MaxPoints && k < MaxPoints
    ensures 1 <= FixedTimes()[k] <= MaxPoints
    ensures Reversed(buf)[k] == buf[FixedTimes()[k] - 1]
  {
  }

  /** `[u + o for u, o in zip(user, others)]` */
  function Stacked(user: seq<real>, others: seq<real>): (r: seq<real>)
    requires |user| == |others|
    ensures |r| == |user|
  {
    seq(|user|, k requires 0 <= k < |user| => user[k] + others[k])
  }

  /** The others band is exactly as thick as the others series, and sits on the user band. */
  lemma StackedBands(user: seq<real>, others: seq<real>)
    requires |user| == |others| && AllPercent(user) && AllPercent(others)
    ensures forall k :: 0 <= k < |user| ==> Stacked(user, others)[k] - user[k] == others[k]
    ensures forall k :: 0 <= k < |user| ==> user[k] <= Stacked(user, others)[k] <= 200.0
  {
  }

  /** Stacking the reversed series is reversing the stacked series. */
  lemma StackedReversed(user: seq<real>, others: seq<real>)
    requires |user| == |others|
    ensures Stacked(Reversed(user), Reversed(others)) == Reversed(Stacked(user, others))
  {
  }

  /** A filled area between two curves drawn over the same x positions. */
  datatype Area = Area(xs: seq<int>, upper: seq<real>, lower: seq<real>)

  /** The curves update_plot_data hands to one chart. */
  datatype Chart = Chart(userFill: Area, othersFill: Area, userLine: seq<real>, othersLine: seq<real>)

  /** update_plot_data: the user area from zero to the user series, the others area from there to the stacked series. */
  function ChartOf(user: seq<real>, others: seq<real>, xs: seq<int>): (c: Chart)
    requires |user| == |others|
    ensures c.userFill.lower == Zeros(|user|) && c.userFill.upper == user
    ensures c.othersFill.lower == user && |c.othersFill.upper| == |user|
    ensures forall k :: 0 <= k < |user| ==> c.othersFill.upper[k] == user[k] + others[k]
    ensures c.userLine == user && c.othersLine == c.othersFill.upper
  {
    var stacked := Stacked(user, others);
    Chart(Area(xs, user, Zeros(|user|)), Area(xs, stacked, user), user, stacked)
  }

  /** The chart of one resource as update_plots draws it. */
  function ChartOfBuffers(user: seq<real>, others: seq<real>): Chart
    requires |user| == |others|
  {
    ChartOf(Reversed(user), Reversed(others), FixedTimes())
  }

  /** Every band of a chart drawn from percentages has its upper curve on or above its lower one. */
  lemma ChartBandsOrdered(user: seq<real>, others: seq<real>)
    requires |user| == |others| == MaxPoints && AllPercent(user) && AllPercent(others)
    ensures var c := ChartOfBuffers(user, others);
      && (forall k :: 0 <= k < MaxPoints ==> c.userFill.lower[k] <= c.userFill.upper[k])
      && (forall k :: 0 <= k < MaxPoints ==> c.othersFill.lower[k] <= c.othersFill.upper[k] <= 200.0)
  {
    var ru, ro := Reversed(user), Reversed(others);
    assert AllPercent(ru) && AllPercent(ro);
    StackedBands(ru, ro);
  }
}
