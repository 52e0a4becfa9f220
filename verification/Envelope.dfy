/**
 The modulation envelope and the LFOs of one voice. The firmware folds any number of elapsed
 milliseconds into one step; the host program runs one iteration per millisecond and is the
 specification here.
 */
module Envelope {
  import opened CInt

  const Q15_FULL: int := 32767

  datatype EnvStage = Idle | Delay | Attack | Hold | Decay | Sustain | Release

  datatype EnvConfig = EnvConfig(
    delayTicks: U32, attackTicks: U32, holdTicks: U32, decayTicks: U32, releaseTicks: U32,
    sustainLevel: U16, attackSubTick: bool)

  datatype EnvState = EnvState(
    stage: EnvStage, stageTick: U32, waitTicks: U32, level: U16, releaseStart: U16)

  datatype Lfo = Lfo(phase: U32, waitTicks: U32)

  function Clamp(x: int, low: int, high: int): int
  {
    if x < low then low else if x > high then high else x
  }

  /** Position `tick` of a straight line from `start` to `target` lasting `ticks`. */
  function LinearLevel(start: U16, target: U16, tick: U32, ticks: U32): U16
  {
    if tick >= ticks then target
    else
      var t := if tick == 0 then 1 else tick;
      Clamp(start + TruncDiv((target - start) * t + ticks / 2, ticks), 0, Q15_FULL)
  }

  function AfterWait(stage: EnvStage): EnvStage
  {
    if stage == Delay then Attack else Decay
  }

  function FinishAttack(cfg: EnvConfig, e: EnvState): EnvState
  {
    if e.stageTick >= cfg.attackTicks then
      e.(level := Q15_FULL, stageTick := 0, waitTicks := cfg.holdTicks,
         stage := if cfg.holdTicks != 0 then Hold else Decay)
    else e
  }

  function FinishDecay(cfg: EnvConfig, e: EnvState): EnvState
  {
    if e.stageTick >= cfg.decayTicks then
      e.(level := cfg.sustainLevel, stageTick := 0, stage := Sustain)
    else e
  }

  /** Moves `n` ticks inside a timed stage and re-evaluates the line once, at the end. */
  function Jump(cfg: EnvConfig, e: EnvState, n: nat): EnvState
  {
    var tick := ToU32(e.stageTick + n);
    match e.stage
    case Attack =>
      FinishAttack(cfg, e.(stageTick := tick, level := LinearLevel(0, Q15_FULL, tick, cfg.attackTicks)))
    case Decay =>
      FinishDecay(cfg, e.(stageTick := tick,
                          level := LinearLevel(Q15_FULL, cfg.sustainLevel, tick, cfg.decayTicks)))
    case Release =>
      e.(stageTick := tick, level := LinearLevel(e.releaseStart, 0, tick, cfg.releaseTicks))
    case _ => e
  }

  /** One millisecond of the host's envelope. */
  function EnvTick(cfg: EnvConfig, e: EnvState): EnvState
  {
    match e.stage
    case Delay =>
      var w := if e.waitTicks != 0 then e.waitTicks - 1 else 0;
      e.(waitTicks := w, stage := if w == 0 then Attack else Delay)
    case Attack =>
      var tick := ToU32(e.stageTick + 1);
      var level := LinearLevel(0, Q15_FULL, tick, cfg.attackTicks);
      if tick >= cfg.attackTicks then
        e.(level := Q15_FULL, stageTick := 0, waitTicks := cfg.holdTicks,
           stage := if cfg.holdTicks != 0 then Hold else Decay)
      else e.(stageTick := tick, level := level)
    case Hold =>
      var w := if e.waitTicks != 0 then e.waitTicks - 1 else 0;
      e.(waitTicks := w, stage := if w == 0 then Decay else Hold)
    case Decay =>
      var tick := ToU32(e.stageTick + 1);
      var level := LinearLevel(Q15_FULL, cfg.sustainLevel, tick, cfg.decayTicks);
      if tick >= cfg.decayTicks then
        e.(level := cfg.sustainLevel, stageTick := 0, stage := Sustain)
      else e.(stageTick := tick, level := level)
    case Release =>
      var tick := ToU32(e.stageTick + 1);
      e.(stageTick := tick, level := LinearLevel(e.releaseStart, 0, tick, cfg.releaseTicks))
    case _ => e
  }

  /** `n` milliseconds of the host's envelope, one at a time. */
  function EnvTicks(cfg: EnvConfig, e: EnvState, n: nat): EnvState
    decreases n
  {
    if n == 0 then e else EnvTicks(cfg, EnvTick(cfg, e), n - 1)
  }

  lemma {:induction false} EnvTicksSplit(cfg: EnvConfig, e: EnvState, m: nat, n: nat)
    ensures EnvTicks(cfg, e, m + n) == EnvTicks(cfg, EnvTicks(cfg, e, m), n)
    decreases m
  {
    if m != 0 {
      EnvTicksSplit(cfg, EnvTick(cfg, e), m - 1, n);
    }
  }

  /** Inside a delay or hold, ticks only count the wait down. */
  lemma {:induction false} WaitRun(cfg: EnvConfig, e: EnvState, n: nat)
    requires e.stage in {Delay, Hold} && n <= e.waitTicks
    ensures EnvTicks(cfg, e, n) ==
            e.(waitTicks := e.waitTicks - n,
               stage := if n != 0 && n == e.waitTicks then AfterWait(e.stage) else e.stage)
    decreases n
  {
    if n != 0 {
      if n == 1 {
        assert EnvTicks(cfg, EnvTick(cfg, e), 0) == EnvTick(cfg, e);
      } else {
        WaitRun(cfg, EnvTick(cfg, e), n - 1);
      }
    }
  }

  /** Inside an attack or decay, only the last tick's line position survives. */
  lemma {:induction false} TimedRun(cfg: EnvConfig, e: EnvState, n: nat)
    requires e.stage in {Attack, Decay} && n >= 1
    requires n == 1 ||
             e.stageTick + n <= if e.stage == Attack then cfg.attackTicks else cfg.decayTicks
    ensures EnvTicks(cfg, e, n) == Jump(cfg, e, n)
    decreases n
  {
    hide LinearLevel;
    var e1 := EnvTick(cfg, e);
    if n == 1 {
      assert EnvTicks(cfg, e1, 0) == e1;
    } else {
      assert e1.stage == e.stage && e1.stageTick == e.stageTick + 1;
      TimedRun(cfg, e1, n - 1);
      assert Jump(cfg, e1, n - 1) == Jump(cfg, e, n);
    }
  }

  lemma WaitFold(cfg: EnvConfig, e: EnvState, n: nat, left: nat)
    requires e.stage in {Delay, Hold} && 1 <= n <= left && n <= e.waitTicks
    ensures EnvTicks(cfg, e, left) ==
            EnvTicks(cfg, e.(waitTicks := e.waitTicks - n,
                             stage := if n == e.waitTicks then AfterWait(e.stage) else e.stage), left - n)
  {
    EnvTicksSplit(cfg, e, n, left - n);
    WaitRun(cfg, e, n);
  }

  lemma TimedFold(cfg: EnvConfig, e: EnvState, n: nat, left: nat)
    requires e.stage in {Attack, Decay} && 1 <= n <= left
    requires n == 1 ||
             e.stageTick + n <= if e.stage == Attack then cfg.attackTicks else cfg.decayTicks
    ensures EnvTicks(cfg, e, left) == EnvTicks(cfg, Jump(cfg, e, n), left - n)
  {
    EnvTicksSplit(cfg, e, n, left - n);
    TimedRun(cfg, e, n);
  }

  lemma {:induction false} ReleaseRun(cfg: EnvConfig, e: EnvState, n: nat)
    requires e.stage == Release && n >= 1
    ensures EnvTicks(cfg, e, n) == Jump(cfg, e, n)
    decreases n
  {
    hide LinearLevel, ToU32;
    if n == 1 {
      assert EnvTicks(cfg, EnvTick(cfg, e), 0) == EnvTick(cfg, e);
    } else {
      var e1 := EnvTick(cfg, e);
      ReleaseRun(cfg, e1, n - 1);
      WrapAdd(e.stageTick + 1, n - 1);
    }
  }

  lemma {:induction false} SteadyRun(cfg: EnvConfig, e: EnvState, n: nat)
    requires e.stage in {Idle, Sustain}
    ensures EnvTicks(cfg, e, n) == e
  {
    if n != 0 {
      SteadyRun(cfg, e, n - 1);
    }
  }

  /** Folding elapsed time is exact: any number of ticks equals that many host iterations. */
  method AdvanceElapsed(cfg: EnvConfig, e: EnvState, elapsed: U32) returns (r: EnvState)
    ensures r == EnvTicks(cfg, e, elapsed)
  {
    hide LinearLevel;
    r := e;
    var left := elapsed;
    while left != 0
      invariant 0 <= left
      invariant EnvTicks(cfg, e, elapsed) == EnvTicks(cfg, r, left)
      decreases left
    {
      if r.stage == Delay || r.stage == Hold {
        if r.waitTicks == 0 {
          r := r.(stage := AfterWait(r.stage));
          left := left - 1;
          continue;
        }
        var advance := if left < r.waitTicks then left else r.waitTicks;
        WaitFold(cfg, r, advance, left);
        r := r.(waitTicks := r.waitTicks - advance);
        left := left - advance;
        if r.waitTicks == 0 {
          r := r.(stage := AfterWait(r.stage));
        }
        continue;
      }
      if r.stage == Attack || r.stage == Decay {
        var duration := if r.stage == Attack then cfg.attackTicks else cfg.decayTicks;
        var remaining := if duration > r.stageTick then duration - r.stageTick else 1;
        var advance := if left < remaining then left else remaining;
        TimedFold(cfg, r, advance, left);
        ghost var next := Jump(cfg, r, advance);
        r := r.(stageTick := ToU32(r.stageTick + advance));
        left := left - advance;
        if r.stage == Attack {
          r := r.(level := LinearLevel(0, Q15_FULL, r.stageTick, duration));
          if r.stageTick >= duration {
            r := r.(level := Q15_FULL, stageTick := 0, waitTicks := cfg.holdTicks);
            r := r.(stage := if r.waitTicks != 0 then Hold else Decay);
          }
        } else {
          r := r.(level := LinearLevel(Q15_FULL, cfg.sustainLevel, r.stageTick, duration));
          if r.stageTick >= duration {
            r := r.(level := cfg.sustainLevel, stageTick := 0, stage := Sustain);
          }
        }
        assert r == next;
        continue;
      }
      if r.stage == Release {
        ReleaseRun(cfg, r, left);
        r := r.(stageTick := ToU32(r.stageTick + left));
        r := r.(level := LinearLevel(r.releaseStart, 0, r.stageTick, cfg.releaseTicks));
      } else {
        SteadyRun(cfg, r, left);
      }
      return;
    }
  }

  // ---- Level bounds -----------------------------------------------------------------------

  /** The line never leaves its endpoints, whichever way it slopes. */
  lemma LinearLevelBetween(start: U16, target: U16, tick: U32, ticks: U32)
    requires start <= Q15_FULL && target <= Q15_FULL
    ensures start <= target ==> start <= LinearLevel(start, target, tick, ticks) <= target
    ensures target <= start ==> target <= LinearLevel(start, target, tick, ticks) <= start
  {
    if tick < ticks {
      var t := if tick == 0 then 1 else tick;
      LineBounds(target - start, t, ticks);
    }
  }

  /** Rounding a fraction of `delta` never overshoots it. */
  lemma LineBounds(delta: int, t: int, ticks: int)
    requires 1 <= t && (t < ticks || t == ticks == 1)
    ensures delta >= 0 ==> 0 <= TruncDiv(delta * t + ticks / 2, ticks) <= delta
    ensures delta < 0 ==> delta <= TruncDiv(delta * t + ticks / 2, ticks) <= 0
  {
    hide TruncDiv;
    var product, whole := delta * t, delta * ticks;
    TruncDivBounds(product + ticks / 2, ticks);
    if delta >= 0 {
      MulMonotone(t, ticks, delta);
      MulMonotone(0, t, delta);
    } else {
      MulMonotone(t, ticks, -delta);
      MulMonotone(1, t, -delta);
    }
    LineQuotient(delta, product, whole, ticks);
  }

  lemma LineQuotient(delta: int, product: int, whole: int, ticks: int)
    requires ticks >= 1 && whole == delta * ticks
    requires delta >= 0 ==> 0 <= product <= whole
    requires delta < 0 ==> whole <= product < 0
    ensures delta >= 0 ==> 0 <= TruncDiv(product + ticks / 2, ticks) <= delta
    ensures delta < 0 ==> delta <= TruncDiv(product + ticks / 2, ticks) <= 0
  {
    hide TruncDiv;
    var x := product + ticks / 2;
    var q := TruncDiv(x, ticks);
    TruncDivBounds(x, ticks);
    if delta >= 0 {
      MulCancel(q, delta + 1, ticks);
    } else if x >= 0 {
      MulCancel(q, 1, ticks);
    } else {
      MulCancel(delta, q + 1, ticks);
    }
  }

  /** Where the level may be in each stage of a voice's life. */
  ghost predicate LevelInStage(cfg: EnvConfig, e: EnvState)
  {
    match e.stage
    case Idle => true
    case Delay => e.level == 0
    case Attack => e.level <= Q15_FULL
    case Hold => e.level == Q15_FULL
    case Decay => cfg.sustainLevel <= e.level <= Q15_FULL
    case Sustain => e.level == cfg.sustainLevel
    case Release => e.level <= e.releaseStart <= Q15_FULL
  }

  /** State given to a starting voice. */
  function InitialEnvelope(cfg: EnvConfig): EnvState
  {
    if cfg.delayTicks == 0 && cfg.attackSubTick then
      EnvState(if cfg.holdTicks != 0 then Hold else Decay, 0, cfg.holdTicks, Q15_FULL, 0)
    else
      EnvState(if cfg.delayTicks != 0 then Delay else Attack, 0, cfg.delayTicks, 0, 0)
  }

  /** State given to a voice whose key and pedals are up. */
  function EnterRelease(e: EnvState): EnvState
  {
    e.(stage := Release, stageTick := 0, releaseStart := e.level)
  }

  lemma TickKeepsLevel(cfg: EnvConfig, e: EnvState)
    requires cfg.sustainLevel <= Q15_FULL && LevelInStage(cfg, e)
    ensures LevelInStage(cfg, EnvTick(cfg, e))
  {
    var tick := ToU32(e.stageTick + 1);
    match e.stage
    case Attack => LinearLevelBetween(0, Q15_FULL, tick, cfg.attackTicks);
    case Decay => LinearLevelBetween(Q15_FULL, cfg.sustainLevel, tick, cfg.decayTicks);
    case Release => LinearLevelBetween(e.releaseStart, 0, tick, cfg.releaseTicks);
    case _ =>
  }

  /** From note start through any elapsed time the level stays between the stage's endpoints,
      before and after release. */
  lemma {:induction false} LevelStaysInStage(cfg: EnvConfig, e: EnvState, n: nat)
    requires cfg.sustainLevel <= Q15_FULL
    requires LevelInStage(cfg, e)
    ensures LevelInStage(cfg, EnvTicks(cfg, e, n))
    ensures LevelInStage(cfg, InitialEnvelope(cfg))
    ensures EnvTicks(cfg, e, n).level <= Q15_FULL ==>
              LevelInStage(cfg, EnterRelease(EnvTicks(cfg, e, n)))
    decreases n
  {
    if n != 0 {
      TickKeepsLevel(cfg, e);
      LevelStaysInStage(cfg, EnvTick(cfg, e), n - 1);
    }
  }

  // ---- Low-frequency oscillators ----------------------------------------------------------

  function LfoTick(step: U32, l: Lfo): Lfo
  {
    if l.waitTicks != 0 then l.(waitTicks := l.waitTicks - 1)
    else l.(phase := ToU32(l.phase + step))
  }

  function LfoTicks(step: U32, l: Lfo, n: nat): Lfo
    decreases n
  {
    if n == 0 then l else LfoTicks(step, LfoTick(step, l), n - 1)
  }

  lemma {:induction false} LfoTicksSplit(step: U32, l: Lfo, m: nat, n: nat)
    ensures LfoTicks(step, l, m + n) == LfoTicks(step, LfoTicks(step, l, m), n)
    decreases m
  {
    if m != 0 {
      LfoTicksSplit(step, LfoTick(step, l), m - 1, n);
    }
  }

  /** The firmware's fold of all ticks but the last. */
  function AdvanceLfoBeforeFinal(step: U32, l: Lfo, elapsed: U32): Lfo
  {
    if elapsed <= l.waitTicks then l.(waitTicks := l.waitTicks - elapsed)
    else
      var active := elapsed - l.waitTicks;
      Lfo(ToU32(l.phase + ToU32(step * active)), 0)
  }

  lemma OneMoreStep(step: int, n: int)
    ensures step * n == step + step * (n - 1)
  {
  }

  lemma WrapAddRest(phase: int, step: int, rest: int)
    ensures ToU32(phase + ToU32(step + rest)) == ToU32(ToU32(phase + step) + ToU32(rest))
  {
    hide ToU32;
    WrapAdd(phase + step, ToU32(rest));
    WrapAdd(phase + step, rest);
    WrapAdd(phase, step + rest);
  }

  lemma WrapAddProduct(phase: U32, step: U32, n: nat)
    ensures n == 0 ==> ToU32(phase + ToU32(step * n)) == phase
    ensures n != 0 ==> ToU32(phase + ToU32(step * n)) ==
                       ToU32(ToU32(phase + step) + ToU32(step * (n - 1)))
  {
    if n != 0 {
      hide ToU32;
      OneMoreStep(step, n);
      WrapAddRest(phase, step, step * (n - 1));
    }
  }

  /** The fold equals that many single ticks, modulo 2^32. */
  lemma {:induction false} LfoFoldExact(step: U32, l: Lfo, n: U32)
    ensures AdvanceLfoBeforeFinal(step, l, n) == LfoTicks(step, l, n)
    decreases n
  {
    hide ToU32;
    if n == 0 {
      WrapAddProduct(l.phase, step, 0);
    } else {
      var next := LfoTick(step, l);
      LfoFoldExact(step, next, n - 1);
      if l.waitTicks == 0 {
        WrapAddProduct(l.phase, step, n);
        if n == 1 {
          WrapAddProduct(next.phase, step, 0);
        }
      }
    }
  }

  /** The published phase is the one the host sees in its n-th iteration, and the state left
      behind is the one after it. */
  lemma LfoSplitExact(step: U32, l: Lfo, n: U32)
    requires n >= 1
    ensures AdvanceLfoBeforeFinal(step, l, n - 1) == LfoTicks(step, l, n - 1)
    ensures LfoTick(step, AdvanceLfoBeforeFinal(step, l, n - 1)) == LfoTicks(step, l, n)
  {
    LfoFoldExact(step, l, n - 1);
    LfoTicksSplit(step, l, n - 1, 1);
    var m := LfoTicks(step, l, n - 1);
    assert LfoTicks(step, LfoTick(step, m), 0) == LfoTick(step, m);
    assert LfoTicks(step, m, 1) == LfoTick(step, m);
  }

  function LfoQ16(phase: U32): int
  {
    var x := phase % 0x1_0000;
    if x < 16384 then x * 4
    else if x < 49152 then 131072 - x * 4
    else x * 4 - 262144
  }

  /** The oscillator is a triangle between minus one and one: it rises from zero, each step of the
      phase moves it by four, and half a period turns it over. */
  lemma LfoIsTriangle(phase: U32)
    ensures -0x1_0000 <= LfoQ16(phase) <= 0x1_0000
    ensures LfoQ16(0) == 0 && LfoQ16(1) == 4
    ensures LfoQ16(ToU32(phase + 1)) - LfoQ16(phase) in {4, -4}
    ensures LfoQ16(ToU32(phase + 0x8000)) == -LfoQ16(phase)
  {
    LowHalf(phase, 1);
    LowHalf(phase, 0x8000);
  }

  /** Only the low half of the phase matters. */
  lemma LowHalf(phase: U32, d: nat)
    requires d < 0x1_0000
    ensures var x := phase % 0x1_0000 + d;
            ToU32(phase + d) % 0x1_0000 == if x < 0x1_0000 then x else x - 0x1_0000
  {
    if phase + d >= TWO_32 {
      assert ToU32(phase + d) == phase + d - TWO_32;
    }
  }
}
