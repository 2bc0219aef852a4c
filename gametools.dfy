/** The shared game helpers: a restartable one-second countdown, a copying
    Fisher–Yates shuffle and a sample of distinct elements.
    `setInterval` is replaced by an explicit `Fire` call (one per elapsed
    second while an interval is held), the `onTick`/`onDone` callbacks by a
    log of signals, and `Math.random` by a supplied sequence of draws. */
module GameTools {
  import opened Wrappers

  // ---------- Countdown: the closure state and its transitions ----------

  /** What the countdown reports: `onTick(remaining)` or `onDone()`. */
  datatype Signal = Tick(remaining: int) | Done

  /** The closure variables of `makeCountdown`: `remain`, and whether an
      interval id is held (`running`). */
  datatype Clock = Clock(remain: int, running: bool)

  function Max(a: int, b: int): int { if a < b then b else a }
  function Min(a: int, b: int): int { if a < b then a else b }

  /** A fresh countdown: `remain = max(0, seconds)`, no interval held. */
  function Initial(seconds: int): (c: Clock)
    ensures c.remain >= 0 && !c.running
    ensures seconds >= 0 ==> c.remain == seconds
    ensures seconds < 0 ==> c.remain == 0
  {
    Clock(Max(0, seconds), false)
  }

  /** `stop`: drop the interval if one is held; `remain` is untouched. */
  function StopStep(c: Clock): Clock
  {
    Clock(c.remain, false)
  }

  /** `start`: stop any live interval, report `remain` at once, hold a new interval. */
  function StartStep(c: Clock): (Clock, seq<Signal>)
  {
    var stopped := StopStep(c);
    (Clock(stopped.remain, true), [Tick(stopped.remain)])
  }

  /** One firing of the interval callback: decrement, report, and on reaching
      zero or below stop before calling `onDone`. Without a live interval
      nothing fires. */
  function FireStep(c: Clock): (Clock, seq<Signal>)
  {
    if !c.running then (c, [])
    else
      var r := c.remain - 1;
      if r <= 0 then (StopStep(Clock(r, true)), [Tick(r), Done])
      else (Clock(r, true), [Tick(r)])
  }

  /** `k` seconds elapsing: the state after `k` firings and everything reported. */
  function Run(c: Clock, k: nat): (Clock, seq<Signal>)
    decreases k
  {
    if k == 0 then (c, [])
    else
      var (c1, s1) := FireStep(c);
      var (c2, s2) := Run(c1, k - 1);
      (c2, s1 + s2)
  }

  /** The ticks `hi, hi-1, …, lo` (empty when `hi < lo`). */
  function Descending(hi: int, lo: int): (s: seq<Signal>)
    ensures |s| == Max(0, hi - lo + 1)
    ensures forall i :: 0 <= i < |s| ==> s[i] == Tick(hi - i)
    decreases hi - lo + 1
  {
    if hi < lo then [] else [Tick(hi)] + Descending(hi - 1, lo)
  }

  /** The number of firings that happen in `k` seconds from a live state. */
  function Fired(c: Clock, k: nat): nat
  {
    Min(k, Max(1, c.remain))
  }

  /** Whatever the start value, `k` seconds of a live countdown report the
      values one below the previous, and `Done` exactly when the value reached
      zero or below, as the very last signal and with the interval dropped. */
  lemma {:induction false} RunShape(c: Clock, k: nat)
    requires c.running
    decreases k
    ensures var m := Fired(c, k);
            var expired := m >= 1 && c.remain - m <= 0;
            && Run(c, k).0 == Clock(c.remain - m, !expired)
            && Run(c, k).1 == Descending(c.remain - 1, c.remain - m) + (if expired then [Done] else [])
  {
    if k > 0 {
      var (c1, s1) := FireStep(c);
      if c.remain - 1 <= 0 {
        StoppedIsQuiet(c1, k - 1);
        assert Descending(c.remain - 1, c.remain - 1) == [Tick(c.remain - 1)];
      } else {
        RunShape(c1, k - 1);
        assert Descending(c.remain - 1, c.remain - Fired(c, k))
            == [Tick(c.remain - 1)] + Descending(c.remain - 2, c.remain - Fired(c, k));
      }
    }
  }

  /** Once stopped (by `stop` or by expiry), no tick and no `onDone` follows. */
  lemma {:induction false} StoppedIsQuiet(c: Clock, k: nat)
    requires !c.running
    ensures Run(c, k) == (c, [])
    decreases k
  {
    if k > 0 {
      StoppedIsQuiet(c, k - 1);
      assert FireStep(c) == (c, []);
      assert Run(c, k).1 == [] + Run(c, k - 1).1;
    }
  }

  /** A countdown of `n >= 1` seconds, started and left alone, reports
      `n, n-1, …, 0` and then `onDone` once, after which it is not running
      and stays silent however long one waits. */
  lemma FullCountdown(n: int, extra: nat)
    requires n >= 1
    ensures var (c, s0) := StartStep(Initial(n));
            && s0 + Run(c, n + extra).1 == Descending(n, 0) + [Done]
            && Run(c, n + extra).0 == Clock(0, false)
  {
    var (c, s0) := StartStep(Initial(n));
    RunShape(c, n + extra);
    assert Fired(c, n + extra) == n;
    assert [Tick(n)] + Descending(n - 1, 0) == Descending(n, 0);
  }

  /** With `seconds = 0` (or negative) the start reports 0, the first firing
      reports -1 and then `onDone`. */
  lemma ZeroCountdown(seconds: int, extra: nat)
    requires seconds <= 0
    ensures var (c, s0) := StartStep(Initial(seconds));
            s0 + Run(c, 1 + extra).1 == [Tick(0), Tick(-1), Done]
  {
    var (c, s0) := StartStep(Initial(seconds));
    RunShape(c, 1 + extra);
  }

  /** `onDone` fires at most once per `start`, as the last signal. */
  lemma DoneOnlyLast(c: Clock, k: nat)
    requires c.running
    ensures forall i :: 0 <= i < |Run(c, k).1| && Run(c, k).1[i] == Done ==> i == |Run(c, k).1| - 1
  {
    RunShape(c, k);
  }

  /** A restart keeps the remaining value: after expiry it resumes from zero or below. */
  lemma RestartKeepsRemaining(c: Clock)
    ensures StartStep(c).0 == Clock(c.remain, true)
    ensures StartStep(c).1 == [Tick(c.remain)]
  {
  }

  /** `stop` is idempotent, reports nothing and never changes `remain`. */
  lemma StopIdempotent(c: Clock)
    ensures StopStep(StopStep(c)) == StopStep(c)
    ensures StopStep(c).remain == c.remain && !StopStep(c).running
    ensures !c.running ==> StopStep(c) == c
  {
  }

  /** The object `makeCountdown` returns, with its closure state as fields. */
  class Countdown {
    /** `remain`, read through the `remaining` getter. */
    var remain: int
    /** `id !== null`, read through the `running` getter. */
    var running: bool
    /** Every `onTick`/`onDone` call made so far, in order. */
    var signals: seq<Signal>

    function State(): Clock
      reads this
    {
      Clock(remain, running)
    }

    constructor (seconds: int)
      ensures State() == Initial(seconds) && signals == []
    {
      remain := Max(0, seconds);
      running := false;
      signals := [];
    }

    /** `start`: at most one interval is live afterwards. */
    method Start()
      modifies this
      ensures State() == StartStep(old(State())).0
      ensures signals == old(signals) + StartStep(old(State())).1
    {
      Stop();
      signals := signals + [Tick(remain)];
      running := true;
    }

    method Stop()
      modifies this
      ensures State() == StopStep(old(State()))
      ensures signals == old(signals)
    {
      if running {
        running := false;
      }
    }

    /** The interval callback, called once per elapsed second. */
    method Fire()
      modifies this
      ensures State() == FireStep(old(State())).0
      ensures signals == old(signals) + FireStep(old(State())).1
    {
      if running {
        remain := remain - 1;
        signals := signals + [Tick(remain)];
        if remain <= 0 {
          Stop();
          signals := signals + [Done];
        }
      }
    }
  }

  // ---------- Shuffling and sampling ----------

  /** The Fisher–Yates loop of `shuffle`: from the last index down to 1, swap
      `a[i]` with `a[j]` where `j` is the next draw reduced to `[0, i]`. */
  method ShuffleInPlace<T>(a: array<T>, draws: seq<nat>)
    requires |draws| >= a.Length
    modifies a
    ensures multiset(a[..]) == old(multiset(a[..]))
  {
    var i := a.Length - 1;
    var k := 0;
    while i > 0
      invariant -1 <= i < a.Length
      invariant a.Length > 0 ==> i >= 0
      invariant k + i == a.Length - 1
      invariant multiset(a[..]) == old(multiset(a[..]))
    {
      var j := draws[k] % (i + 1);
      a[i], a[j] := a[j], a[i];
      i, k := i - 1, k + 1;
    }
  }

  /** `shuffle`: a new array holding a permutation of the input; a non-array
      input (`None`) gives the empty array. The input is a value and so
      cannot change. */
  method Shuffle<T>(arr: Option<seq<T>>, draws: seq<nat>) returns (r: seq<T>)
    requires arr.Some? ==> |draws| >= |arr.value|
    ensures arr.None? ==> r == []
    ensures arr.Some? ==> |r| == |arr.value| && multiset(r) == multiset(arr.value)
  {
    if arr.None? {
      return [];
    }
    var s := arr.value;
    var a := new T[|s|](i requires 0 <= i < |s| => s[i]);
    assert a[..] == s;
    ShuffleInPlace(a, draws);
    r := a[..];
  }

  /** `n|0`: the number converted to a signed 32-bit integer. */
  function ToInt32(n: int): (r: int)
    ensures -0x8000_0000 <= r < 0x8000_0000
    ensures -0x8000_0000 <= n < 0x8000_0000 ==> r == n
  {
    (n + 0x8000_0000) % 0x1_0000_0000 - 0x8000_0000
  }

  /** `sampleDistinct`: the first `max(0, n|0)` elements of a shuffle, so
      `min(max(0, n|0), arr.length)` elements from distinct positions. */
  method SampleDistinct<T>(arr: Option<seq<T>>, n: int, draws: seq<nat>) returns (r: seq<T>)
    requires arr.Some? ==> |draws| >= |arr.value|
    ensures arr.None? ==> r == []
    ensures arr.Some? ==> |r| == Min(Max(0, ToInt32(n)), |arr.value|)
    ensures arr.Some? ==> multiset(r) <= multiset(arr.value)
  {
    var all := Shuffle(arr, draws);
    var count := Min(Max(0, ToInt32(n)), |all|);
    r := all[..count];
    assert all == r + all[count..];
    assert multiset(all) == multiset(r) + multiset(all[count..]);
  }
}
