/**
 * The speed-mode mapping inside `Predictor.predict` (flux-dev/predict.py):
 * when the pipeline has a cache helper, it is disabled, re-enabled and, for a
 * recognised speed mode, given a speed factor that depends on the mode and on
 * whether more than 20 inference steps were asked for. Speed factors are
 * integer tenths (5 stands for 0.5).
 */
module Tuning {
  import opened Results

  datatype SpeedMode = LightlyJuiced | Juiced | ExtraJuiced

  /** The three labels the request offers, emoji included; their first letters tell them apart. */
  function Label(mode: SpeedMode): (text: string)
    ensures |text| > 0
    ensures text[0] == 'L' <==> mode == LightlyJuiced
    ensures text[0] == 'E' <==> mode == ExtraJuiced
  {
    match mode
    case LightlyJuiced => "Lightly Juiced \U{1F34A} (more consistent)"
    case Juiced => "Juiced \U{1F525} (default)"
    case ExtraJuiced => "Extra Juiced \U{1F525} (more speed)"
  }

  /** The `if`/`elif` chain on `speed_mode`; any other text matches no branch. */
  function ParseSpeedMode(text: string): (r: Option<SpeedMode>)
    ensures r.Some? ==> Label(r.value) == text
    ensures forall m :: Label(m) == text ==> r == Some(m)
  {
    if text == Label(LightlyJuiced) then Some(LightlyJuiced)
    else if text == Label(ExtraJuiced) then Some(ExtraJuiced)
    else if text == Label(Juiced) then Some(Juiced)
    else None
  }

  /** Runs with more steps than this get the lower factor. */
  const StepThreshold: int := 20

  /** The factor passed to `set_params`, in tenths: between 0.3 and 0.6, and lower above the threshold. */
  function SpeedFactor(mode: SpeedMode, steps: int): (f: int)
    ensures 3 <= f <= 6
    ensures steps > StepThreshold ==> f < SpeedFactor(mode, StepThreshold)
  {
    match mode
    case LightlyJuiced => if steps > StepThreshold then 5 else 6
    case ExtraJuiced => if steps > StepThreshold then 3 else 4
    case Juiced => if steps > StepThreshold then 4 else 5
  }

  /** The factor each mode uses for runs of at most 20 steps. */
  function ShortRunFactor(mode: SpeedMode): int
  {
    match mode
    case LightlyJuiced => 6
    case Juiced => 5
    case ExtraJuiced => 4
  }

  /** Every factor is the mode's short-run factor, less one tenth for runs above the threshold. */
  lemma SpeedFactorRule(mode: SpeedMode, steps: int)
    ensures SpeedFactor(mode, steps) == ShortRunFactor(mode) - (if steps > StepThreshold then 1 else 0)
  {
  }

  /** For each mode, a run above 20 steps gets exactly 0.1 less than one at or below 20. */
  lemma LongRunsOneTenthLower(mode: SpeedMode, short: int, long: int)
    requires short <= StepThreshold < long
    ensures SpeedFactor(mode, long) == SpeedFactor(mode, short) - 1
  {
  }

  /** More juice means a smaller factor, at every step count. */
  lemma MoreJuiceSmallerFactor(steps: int)
    ensures SpeedFactor(LightlyJuiced, steps) > SpeedFactor(Juiced, steps) > SpeedFactor(ExtraJuiced, steps)
  {
  }

  /** The factor a speed-mode text and step count select, when the text is one of the three labels. */
  function FactorFor(text: string, steps: int): (f: Option<int>)
    ensures forall m :: text == Label(m) ==> f == Some(SpeedFactor(m, steps))
    ensures (forall m :: text != Label(m)) ==> f == None
  {
    match ParseSpeedMode(text)
    case None => None
    case Some(mode) => Some(SpeedFactor(mode, steps))
  }

  /** "Extra Juiced" with 30 steps and with 10 steps picks different factors. */
  lemma ExtraJuicedDependsOnSteps()
    ensures FactorFor(Label(ExtraJuiced), 30) == Some(3)
    ensures FactorFor(Label(ExtraJuiced), 10) == Some(4)
  {
  }

  /** The calls made on the helper, in order. */
  datatype HelperCall = Disable | Enable | SetParams(speedFactor: int)

  /** The calls `predict` makes on a present helper: disable, enable, then maybe one `set_params`. */
  function TuningCalls(text: string, steps: int): (calls: seq<HelperCall>)
    ensures forall m :: text == Label(m) ==> calls == [Disable, Enable, SetParams(SpeedFactor(m, steps))]
    ensures (forall m :: text != Label(m)) ==> calls == [Disable, Enable]
  {
    match FactorFor(text, steps)
    case None => [Disable, Enable]
    case Some(f) => [Disable, Enable, SetParams(f)]
  }

  /** The acceleration layer's cache helper, reduced to the state `predict` touches. */
  class CacheHelper {
    var enabled: bool
    var speedFactor: Option<int>
    var calls: seq<HelperCall>

    constructor (enabled: bool, speedFactor: Option<int>)
      ensures this.enabled == enabled && this.speedFactor == speedFactor && calls == []
    {
      this.enabled := enabled;
      this.speedFactor := speedFactor;
      calls := [];
    }

    method Disable()
      modifies this
      ensures !enabled && speedFactor == old(speedFactor) && calls == old(calls) + [HelperCall.Disable]
    {
      enabled := false;
      calls := calls + [HelperCall.Disable];
    }

    method Enable()
      modifies this
      ensures enabled && speedFactor == old(speedFactor) && calls == old(calls) + [HelperCall.Enable]
    {
      enabled := true;
      calls := calls + [HelperCall.Enable];
    }

    method SetParams(factor: int)
      modifies this
      ensures enabled == old(enabled) && speedFactor == Some(factor)
      ensures calls == old(calls) + [HelperCall.SetParams(factor)]
    {
      speedFactor := Some(factor);
      calls := calls + [HelperCall.SetParams(factor)];
    }
  }

  /** The smashed pipeline; `cacheHelper == null` stands for `hasattr(pipe, "cache_helper")` failing. */
  class Pipeline {
    const cacheHelper: CacheHelper?

    constructor (cacheHelper: CacheHelper?)
      ensures this.cacheHelper == cacheHelper
    {
      this.cacheHelper := cacheHelper;
    }

    /**
     * Lines 166-185. A present helper ends enabled, with the selected factor
     * or, for an unknown text, the factor it had; a missing helper means
     * nothing changes and no error is raised.
     */
    method ConfigureCache(speedMode: string, steps: int)
      modifies cacheHelper
      ensures cacheHelper != null ==>
                && cacheHelper.enabled
                && cacheHelper.speedFactor == (match FactorFor(speedMode, steps)
                                               case Some(f) => Some(f)
                                               case None => old(cacheHelper.speedFactor))
                && cacheHelper.calls == old(cacheHelper.calls) + TuningCalls(speedMode, steps)
    {
      if cacheHelper != null {
        cacheHelper.Disable();
        cacheHelper.Enable();
        if speedMode == Label(LightlyJuiced) {
          cacheHelper.SetParams(if steps > StepThreshold then 5 else 6);
        } else if speedMode == Label(ExtraJuiced) {
          cacheHelper.SetParams(if steps > StepThreshold then 3 else 4);
        } else if speedMode == Label(Juiced) {
          cacheHelper.SetParams(if steps > StepThreshold then 4 else 5);
        }
      }
    }
  }
}
