/**
 * `Predictor.predict` in flux-dev/predict.py, in the order it does things:
 * resolve the dimensions, build the pipeline's keyword arguments (with a
 * seeded generator unless the seed is -1), tune the cache helper, run the
 * pipeline once, create a fresh directory and save the image in it as
 * `output_{seed}_0.{fmt}`. The pipeline run is a function parameter and the
 * directory `mkdtemp` picks a path parameter.
 */
module Predictor {
  import opened Results
  import opened Text
  import opened Dimensions
  import opened Persist
  import opened Tuning

  /** The seed that asks for an unseeded, non-reproducible run. */
  const Unseeded: int := -1

  /** The generator handed to the pipeline, reduced to the seed it was seeded with. */
  function Generator(seed: int): (g: Option<int>)
    ensures g.Some? <==> seed != Unseeded
    ensures g.Some? ==> g.value == seed
  {
    if seed != Unseeded then Some(seed) else None
  }

  /** The keyword arguments of the pipeline call. */
  datatype PipelineArgs = PipelineArgs(prompt: string, height: int, width: int, guidance: real,
                                       steps: int, generator: Option<int>)

  function Arguments(prompt: string, size: Size, guidance: real, steps: int, seed: int): (args: PipelineArgs)
    ensures args.width == size.width && args.height == size.height
    ensures args.generator.Some? <==> seed != Unseeded
  {
    PipelineArgs(prompt, size.height, size.width, guidance, steps, Generator(seed))
  }

  /** The exception `predict` lets escape. */
  datatype PredictError = DimensionFailure(dimension: DimensionError) | SaveFailure(save: SaveError)

  /** The choices the hosting layer offers before `predict` runs. */
  const AspectRatioChoices: seq<string> :=
    ["1:1", "16:9", "21:9", "3:2", "2:3", "4:5", "5:4", "3:4", "4:3", "9:16", "9:21"]

  const FormatChoices: seq<string> := ["png", "jpg", "webp"]

  /** A name `mkdtemp` may pick: no folder or file has it, and nothing lies in it. */
  ghost predicate FreshDirectory<I>(storage: Storage<I>, dir: Path)
    reads storage
  {
    && dir !in storage.folders
    && dir !in storage.files
    && (forall p :: p in storage.files && p.HasParent() ==> p.Parent() != dir)
    && (forall d :: d in storage.folders && d.HasParent() ==> d.Parent() != dir)
  }

  class Predictor<I> {
    /** `smashed_txt2img_pipe`, as `setup` leaves it. */
    const pipe: Pipeline

    constructor (pipe: Pipeline)
      ensures this.pipe == pipe
    {
      this.pipe := pipe;
    }

    /**
     * One prediction. An aspect-ratio error is raised before anything is
     * touched. Otherwise the helper is tuned, the pipeline runs and the
     * output directory is created; a save error then writes nothing, and a
     * successful save leaves exactly one file, holding the pipeline's image,
     * in that directory.
     */
    method Predict(storage: Storage<I>, run: PipelineArgs -> I, outputDir: Path,
                   prompt: string, speedMode: string, steps: int, guidance: real, seed: int,
                   aspectRatio: string, imageSize: int, outputFormat: string, outputQuality: int)
      returns (r: Result<Path, PredictError>)
      requires FreshDirectory(storage, outputDir)
      modifies pipe.cacheHelper, storage
      ensures match ResolveDimensions(aspectRatio, imageSize)
        case Failure(e) =>
          && r == Failure(DimensionFailure(e))
          && storage.files == old(storage.files) && storage.folders == old(storage.folders)
          && (pipe.cacheHelper != null ==>
                && pipe.cacheHelper.enabled == old(pipe.cacheHelper.enabled)
                && pipe.cacheHelper.speedFactor == old(pipe.cacheHelper.speedFactor)
                && pipe.cacheHelper.calls == old(pipe.cacheHelper.calls))
        case Success(size) =>
          && storage.folders == old(storage.folders) + {outputDir}
          && (pipe.cacheHelper != null ==>
                && pipe.cacheHelper.enabled
                && pipe.cacheHelper.speedFactor == (match FactorFor(speedMode, steps)
                                                    case Some(f) => Some(f)
                                                    case None => old(pipe.cacheHelper.speedFactor))
                && pipe.cacheHelper.calls == old(pipe.cacheHelper.calls) + TuningCalls(speedMode, steps))
          && match PlanSave(outputDir, seed, Number(0), outputFormat, outputQuality, None)
             case Failure(e) =>
               r == Failure(SaveFailure(e)) && storage.files == old(storage.files)
             case Success(plan) =>
               && r == Success(plan.path)
               && storage.files == old(storage.files)[plan.path :=
                    Written(run(Arguments(prompt, size, guidance, steps, seed)), plan.format, plan.options)]
      ensures r.Success? ==> r.value.HasParent() && r.value.Parent() == outputDir
      ensures r.Success? ==>
                forall p :: p in storage.files && p.HasParent() && p.Parent() == outputDir ==> p == r.value
    {
      var dims := ResolveDimensions(aspectRatio, imageSize);
      if dims.Failure? {
        return Failure(DimensionFailure(dims.error));
      }
      var args := Arguments(prompt, dims.value, guidance, steps, seed);
      pipe.ConfigureCache(speedMode, steps);
      var image := run(args);
      storage.MakeDirectory(outputDir);
      ghost var plan := PlanSave(outputDir, seed, Number(0), outputFormat, outputQuality, None);
      NoSeparatorInNumber(0);
      if plan.Success? {
        var path := plan.value.path;
        assert path.HasParent() && path.Parent() == outputDir;
        assert path != outputDir;
        assert path !in old(storage.folders);
      }
      var saved := storage.SaveImage(outputDir, seed, Number(0), image, outputFormat, outputQuality, None);
      match saved {
        case Failure(e) => r := Failure(SaveFailure(e));
        case Success(path) => r := Success(path);
      }
    }
  }

  lemma ChoicesAreRatioTexts()
    ensures AspectRatioChoices == [RatioText(1, 1), RatioText(16, 9), RatioText(21, 9), RatioText(3, 2),
                                   RatioText(2, 3), RatioText(4, 5), RatioText(5, 4), RatioText(3, 4),
                                   RatioText(4, 3), RatioText(9, 16), RatioText(9, 21)]
  {
    SixteenText();
    assert IntToString(21) == "21" by {
      assert NatToString(2) == "2";
      assert DigitChar(1) == '1';
    }
    assert RatioText(1, 1) == "1:1";
    assert RatioText(16, 9) == "16:9";
    assert RatioText(21, 9) == "21:9";
    assert RatioText(3, 2) == "3:2";
    assert RatioText(2, 3) == "2:3";
    assert RatioText(4, 5) == "4:5";
    assert RatioText(5, 4) == "5:4";
    assert RatioText(3, 4) == "3:4";
    assert RatioText(4, 3) == "4:3";
    assert RatioText(9, 16) == "9:16";
    assert RatioText(9, 21) == "9:21";
  }

  /**
   * Every request the hosting layer admits passes both validation steps: its
   * aspect ratio resolves, with the base size as the longer side whenever
   * that size is not negative, and its format and quality (1 to 100, inside
   * the persister's 0 to 100) are saved.
   */
  lemma AdmittedRequestsValidate(choice: nat, imageSize: int, outputFormat: string, outputQuality: int,
                                 folder: Path, seed: int)
    requires choice < |AspectRatioChoices|
    requires outputFormat in FormatChoices && 1 <= outputQuality <= 100
    ensures ResolveDimensions(AspectRatioChoices[choice], imageSize).Success?
    ensures var s := ResolveDimensions(AspectRatioChoices[choice], imageSize).value;
              imageSize >= 0 ==> (if s.width >= s.height then s.width else s.height) == imageSize
    ensures PlanSave(folder, seed, Number(0), outputFormat, outputQuality, None).Success?
  {
    ChoicesAreRatioTexts();
    var ratios := [(1, 1), (16, 9), (21, 9), (3, 2), (2, 3), (4, 5), (5, 4), (3, 4), (4, 3), (9, 16), (9, 21)];
    var (w, h) := ratios[choice];
    assert AspectRatioChoices[choice] == RatioText(w, h);
    ParseRatioText(w, h);
    if imageSize >= 0 {
      LongerSideIsSize(w, h, imageSize);
    }
  }

  /** Every offered speed mode is recognised, so a present helper always gets a factor. */
  lemma OfferedModesAreTuned(mode: SpeedMode, steps: int)
    ensures TuningCalls(Label(mode), steps) == [Disable, Enable, SetParams(SpeedFactor(mode, steps))]
  {
  }
}
