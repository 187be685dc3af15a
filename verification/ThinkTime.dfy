/** The decaying think-time average of a process or group. */
module ThinkTime {

  import opened Kernel

  /** last_end_request is represented by the elapsed time given to each update. */
  datatype TTime = TTime(total: nat, mean: nat, samples: nat)

  const ZERO := TTime(0, 0, 0)

  function Min(a: nat, b: nat): nat {
    if a < b then a else b
  }

  /** One update, elapsed nanoseconds after the last completion. */
  function Update(t: TTime, elapsed: nat, sliceIdle: nat): TTime {
    var e := Min(elapsed, 2 * sliceIdle);
    var samples := (7 * t.samples + 256) / 8;
    var total := (7 * t.total + 256 * e) / 8;
    TTime(total, (total + 128) / samples, samples)
  }

  /** The struct as the kernel updates it, in 64-bit unsigned arithmetic. */
  class CfqTtime {
    var lastEndRequest: nat
    var ttime: TTime

    constructor (now: nat)
      ensures ttime == ZERO && lastEndRequest == now
    {
      lastEndRequest, ttime := now, ZERO;
    }

    /** No intermediate value wraps, so the stored fields are the unbounded ones. */
    method UpdateIoThinktime(now: nat, sliceIdle: nat)
      requires lastEndRequest <= now
      requires Bounded(ttime, sliceIdle) && sliceIdle < U64 / 4096
      modifies this`ttime
      ensures ttime == Update(old(ttime), now - lastEndRequest, sliceIdle)
      ensures Bounded(ttime, sliceIdle)
    {
      NothingWraps(ttime, now - lastEndRequest, sliceIdle);
      UpdateStep(ttime, now - lastEndRequest, sliceIdle);
      var elapsed := now - lastEndRequest;
      if elapsed > 2 * sliceIdle {
        elapsed := 2 * sliceIdle;
      }
      var samples := (7 * ttime.samples + 256) % U64 / 8;
      var total := (7 * ttime.total + 256 * elapsed) % U64 / 8;
      ttime := TTime(total, (total + 128) % U64 / samples, samples);
    }
  }

  lemma NothingWraps(t: TTime, elapsed: nat, sliceIdle: nat)
    requires Bounded(t, sliceIdle) && sliceIdle < U64 / 4096
    ensures (7 * t.samples + 256) % U64 == 7 * t.samples + 256
    ensures var w := 7 * t.total + 256 * Min(elapsed, 2 * sliceIdle);
            w % U64 == w && (w / 8 + 128) % U64 == w / 8 + 128
  {
    var w := 7 * t.total + 256 * Min(elapsed, 2 * sliceIdle);
    Mono(2 * sliceIdle, t.samples + 7, 256);
    assert t.total <= 512 * sliceIdle;
    assert w <= 4096 * sliceIdle;
    assert w / 8 + 128 < U64;
  }

  /** The share of twice the idle slice that `samples` samples may hold. */
  ghost function Share(sliceIdle: nat, samples: nat): nat {
    2 * sliceIdle * (samples + 7)
  }

  ghost predicate Bounded(t: TTime, sliceIdle: nat) {
    t.samples <= 249 && t.total <= Share(sliceIdle, t.samples)
  }

  /** samples rises strictly until it stays at 249, and total stays within its share. */
  lemma UpdateStep(t: TTime, elapsed: nat, sliceIdle: nat)
    requires Bounded(t, sliceIdle)
    ensures var u := Update(t, elapsed, sliceIdle);
            && u.samples > 0
            && Bounded(u, sliceIdle)
            && (t.samples < 249 ==> t.samples < u.samples)
            && (t.samples == 249 ==> u.samples == 249)
  {
    var n := (7 * t.samples + 256) / 8;
    ShareStep(sliceIdle, t.samples, n);
  }

  lemma ShareStep(sliceIdle: nat, m: nat, n: nat)
    requires 8 * n >= 7 * m + 249
    ensures 8 * Share(sliceIdle, n) >= 7 * Share(sliceIdle, m) + 512 * sliceIdle
  {
    var s := 2 * sliceIdle;
    Mono(s, 7 * m + 305, 8 * (n + 7));
    assert s * (7 * m + 305) == 7 * (s * (m + 7)) + 256 * s;
    assert s * (8 * (n + 7)) == 8 * (s * (n + 7));
  }

  lemma Mono(s: nat, a: nat, b: nat)
    requires a <= b
    ensures s * a <= s * b
  {
  }

  function UpdateAll(t: TTime, es: seq<nat>, sliceIdle: nat): TTime
    decreases |es|
  {
    if es == [] then t else UpdateAll(Update(t, es[0], sliceIdle), es[1..], sliceIdle)
  }

  /**
   * Over all update sequences from zero: samples reaches 249 and stays, and the mean of
   * the last update is bounded by its share of twice the idle slice.
   */
  lemma {:induction false} MeanBounded(t: TTime, es: seq<nat>, sliceIdle: nat)
    requires Bounded(t, sliceIdle)
    ensures var u := UpdateAll(t, es, sliceIdle);
            && Bounded(u, sliceIdle)
            && u.samples >= t.samples
            && (u.samples >= t.samples + |es| || u.samples == 249)
            && (es != [] ==> (
                  && u.samples > 0
                  && u.mean == (u.total + 128) / u.samples
                  && u.mean * u.samples <= Share(sliceIdle, u.samples) + 128))
    decreases |es|
  {
    if es != [] {
      var v := Update(t, es[0], sliceIdle);
      UpdateStep(t, es[0], sliceIdle);
      MeanBounded(v, es[1..], sliceIdle);
      if |es| == 1 {
        assert es[1..] == [];
        DivMul(v.total + 128, v.samples);
      }
    }
  }

  lemma DivMul(a: nat, b: nat)
    requires b > 0
    ensures a / b * b <= a
  {
  }
}
