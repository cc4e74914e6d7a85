# flux-dev request handling, modelled in Dafny

The flux-dev predictor serves one `predict` request at a time. It turns an
aspect-ratio text such as `"16:9"` and a base size into pixel dimensions. It
hands the pipeline a seeded generator unless the seed is `-1`. It tunes the
pipeline's cache helper from a speed-mode label and the step count. Then it
saves the single output image with `save_image`, which normalises `jpg` to
`jpeg`, checks first the format and then the quality, and builds the name
`output_{seed}_{index}[_intermediate_{step}].{fmt}` inside the output folder.

Modules, one per component:

- `Results`: `Option` and `Result` standing in for `None` and raised exceptions.
- `Text`: Python's `str()` of an integer, `int()` of a string and `str.split`, with their round trips.
- `Dimensions`: the aspect-ratio resolver. Division is exact rational arithmetic and `int()` truncates toward zero.
- `Persist`: `save_image`. `PlanSave` is everything it decides; `Storage.SaveImage` is the imperative routine that performs the write on a modelled disk of folders and files. `Path.Child` is pathlib's `/`, which splits the joined name at `/`.
- `Tuning`: the speed-factor table (in tenths: 5 means 0.5), and the `CacheHelper` and `Pipeline` classes that `predict` updates in place.
- `Predictor`: the seed sentinel, the pipeline arguments and `predict` itself, in the source's order of effects.

Behaviour of the code worth noting:

- The resolver does not reject non-positive components. Only a zero height fails (ZeroDivisionError). A zero or negative width, and negative sizes, go through the arithmetic.
- A malformed aspect ratio fails in the order the lazy `map(int, ...)` unpacking dictates. If `int()` fails on one of the first three components, that failure comes first. Otherwise one component gives "not enough values" and three or more give "too many values".
- `save_image` returns the unresolved `output_folder / name`, not a resolved absolute path.
- A text `index` holding `/` is split by pathlib, so the file would go in a sub-folder of the output folder. That sub-folder does not exist, so the write fails with FileNotFoundError. `predict` always passes the index `0`, which never does this.

## Model

| member | source | states |
|---|---|---|
| `Text.IntToString` | flux-dev/predict.py:50 | `str()` of an int is non-empty, made of digits with an optional leading `-`, starts with `-` exactly for negatives, and is canonical: no leading zero and no `-0` |
| `Text.ParseInt` | flux-dev/predict.py:137 | `int()` accepts exactly an optional sign followed by at least one digit |
| `Text.ParseIntOfIntToString` | flux-dev/predict.py:137 | `int(str(n)) == n` for every integer |
| `Text.Split` | flux-dev/predict.py:137 | `split(":")` yields at least one piece, no piece contains the separator, and a text not starting with the separator has a first piece starting with its first character |
| `Text.JoinOfSplit` | flux-dev/predict.py:137 | the pieces of a split, joined with the separator, give back the text |
| `Text.SplitOfJoin` | flux-dev/predict.py:137 | splitting a join of separator-free pieces gives back the pieces |
| `Dimensions.ParseAspectRatio` | flux-dev/predict.py:137 | succeeds exactly when there are two pieces and both parse, and then returns their values |
| `Dimensions.ParseRatioText` | flux-dev/predict.py:137 | every `"W:H"` written from two integers parses back to (W, H) |
| `Dimensions.OneComponentFails` | flux-dev/predict.py:137 | a text with one integer and no `:` fails with "not enough values" |
| `Dimensions.ThreeComponentsFail` | flux-dev/predict.py:137 | three integer components fail with "too many values", whatever the size |
| `Dimensions.TruncDiv` | flux-dev/predict.py:143 | `int(a / b)`: the magnitude is floor of the magnitudes, and the sign is the product of the signs |
| `Dimensions.TruncDivBounds` | flux-dev/predict.py:147 | truncation bounds: abs(q)·abs(b) ≤ abs(a) < (abs(q)+1)·abs(b) |
| `Dimensions.RatioAtLeastOne` | flux-dev/predict.py:138-140 | the integer test holds exactly when width / height ≥ 1 in exact arithmetic, for any non-zero height |
| `Dimensions.Resolve` | flux-dev/predict.py:138-147 | fails exactly on a zero height, with ZeroDivision; ratio ≥ 1 gives width = size, otherwise height = size |
| `Dimensions.ResolveDimensions` | flux-dev/predict.py:137-147 | a parse error is passed on; after a parse, success exactly when the height is non-zero (ZeroDivision otherwise), with width = size when the ratio is at least one and height = size otherwise |
| `Dimensions.ZeroHeightFails` | flux-dev/predict.py:138 | `"W:0"` fails with ZeroDivision for every W and size |
| `Dimensions.ResolveLandscape` | flux-dev/predict.py:140-143 | W ≥ H > 0: width = size, height = floor(size·H/W) with the floor bounds, and height ≤ width |
| `Dimensions.ResolvePortrait` | flux-dev/predict.py:144-147 | 0 < W < H: height = size, width = floor(size·W/H) with the floor bounds, and width < height whenever size > 0 |
| `Dimensions.LongerSideIsSize` | flux-dev/predict.py:137-147 | for positive W, H the longer resolved side equals the base size |
| `Dimensions.SixteenByNine` | flux-dev/predict.py:140-143 | `"16:9"` with 1024 resolves to 1024×576 |
| `Dimensions.NineBySixteen` | flux-dev/predict.py:144-147 | `"9:16"` with 1024 resolves to 576×1024 |
| `Persist.ParseFormat` | flux-dev/predict.py:42 | accepts exactly webp, png and jpeg, and names the format it was given |
| `Persist.Normalise` | flux-dev/predict.py:38-39 | the result is never `jpg`, every other name is kept, and it is a known format exactly when the name is webp, png, jpeg or jpg |
| `Persist.Pieces` | flux-dev/predict.py:49-54 | the pieces pathlib keeps contain no `/`, are neither empty nor `.`, and a name without `/` is one piece |
| `Persist.Path.Child` | flux-dev/predict.py:49-54 | `folder / name` stays below `folder` unless the name starts with `/`, which makes it absolute; a name without `/` (and not empty or `.`) gives parent `folder` and name `name` |
| `Persist.FileNameShape` | flux-dev/predict.py:49-54 | every file name (`Stem`, a dot, the format) starts with `output_`, ends with `.` and the format name, and holds a `/` exactly when the index text does |
| `Persist.ChildOfFileName` | flux-dev/predict.py:49-54 | `folder / FileName(...)` lies below the folder, directly in it under that name when the index text has no `/`, and at least two levels down otherwise |
| `Persist.PlanSave` | flux-dev/predict.py:38-58 | succeeds iff the normalised format is known and 0 ≤ quality ≤ 100; a bad format is reported first, with the normalised name; the file lies below the folder, directly in it under `FileName` unless the index text holds a `/`, in which case it is at least two levels down; PNG gets default options, and the others get `quality` and `optimize=True` |
| `Persist.JpgSavedAsJpeg` | flux-dev/predict.py:38-39 | `jpg` plans exactly what `jpeg` does for every quality; with a valid quality it is saved as JPEG under a name ending `.jpeg` |
| `Persist.GifRejected` | flux-dev/predict.py:41-43 | `gif` fails with the format error for any quality |
| `Persist.QualityBounds` | flux-dev/predict.py:45-47 | quality 0 and 100 pass; -1 and 101 fail with the quality error |
| `Persist.PngIgnoresQuality` | flux-dev/predict.py:55-58 | two valid PNG saves that differ only in quality plan the same file |
| `Persist.FileNameRoundTrip` | flux-dev/predict.py:49-54 | seed, numeric index, step and format can be read back from the file name |
| `Persist.FileNameInjective` | flux-dev/predict.py:49-54 | distinct (seed, numeric index, step, format) never share a file name |
| `Persist.Storage.SaveImage` | flux-dev/predict.py:11-59 | folders never change; on a format or quality error, a missing parent folder (FileNotFoundError) or a path that is a folder (IsADirectoryError) nothing is written; otherwise exactly the planned path maps to the image with the planned format and options, and it is returned |
| `Persist.Storage.Write` | flux-dev/predict.py:55-58 | `image.save` fails with FileNotFoundError when the parent folder is missing and with IsADirectoryError when the path is a folder, writing nothing; otherwise exactly that path gets the content; folders never change |
| `Persist.Storage.MakeDirectory` | flux-dev/predict.py:192 | `mkdtemp` adds the one folder it creates and changes no file |
| `Tuning.ParseSpeedMode` | flux-dev/predict.py:169-183 | recognises exactly the three labels, returning the mode whose label matched |
| `Tuning.Label` | flux-dev/predict.py:98-100 | the three labels differ: their first letters are L, J and E |
| `Tuning.SpeedFactor` | flux-dev/predict.py:170-182 | every factor lies in [0.3, 0.6], and a run above 20 steps gets a smaller factor than one at 20 |
| `Tuning.SpeedFactorRule` | flux-dev/predict.py:169-183 | every factor is the mode's short-run factor (0.6, 0.5, 0.4), less 0.1 above 20 steps |
| `Tuning.LongRunsOneTenthLower` | flux-dev/predict.py:172-182 | for each mode, a run above 20 steps gets exactly 0.1 less than one at or below 20 |
| `Tuning.MoreJuiceSmallerFactor` | flux-dev/predict.py:169-183 | Lightly Juiced > Juiced > Extra Juiced at every step count |
| `Tuning.FactorFor` | flux-dev/predict.py:169-183 | a text equal to a mode's label selects that mode's factor for the step count; a text equal to no label selects none |
| `Tuning.ExtraJuicedDependsOnSteps` | flux-dev/predict.py:174-178 | Extra Juiced gives 0.3 at 30 steps and 0.4 at 10 |
| `Tuning.TuningCalls` | flux-dev/predict.py:167-183 | for a mode's label the helper gets disable, enable and `set_params` with that mode's factor; for any other text only disable and enable |
| `Tuning.CacheHelper.Disable` | flux-dev/predict.py:167 | the helper is disabled, and the call is logged |
| `Tuning.CacheHelper.Enable` | flux-dev/predict.py:168 | the helper is enabled, and the call is logged |
| `Tuning.CacheHelper.SetParams` | flux-dev/predict.py:171-182 | the speed factor is set, and the call is logged |
| `Tuning.Pipeline.ConfigureCache` | flux-dev/predict.py:165-185 | a present helper ends enabled, with the selected factor or, for an unknown label, its old one, after exactly `TuningCalls`; a missing helper changes nothing |
| `Predictor.Generator` | flux-dev/predict.py:156-158 | a generator is supplied iff seed ≠ -1, seeded with the seed |
| `Predictor.Arguments` | flux-dev/predict.py:150-159 | the pipeline gets the resolved width and height, and a generator iff seed ≠ -1 |
| `Predictor.Predictor.Predict` | flux-dev/predict.py:136-202 | a dimension error leaves helper, folders and files untouched; otherwise the helper ends enabled with the selected factor (or its old one) after exactly the tuning calls, the output folder is created, and then either a save error writes nothing or exactly one file, holding the pipeline's image for these arguments, appears in the fresh folder, which then holds only that file |
| `Predictor.AdmittedRequestsValidate` | flux-dev/predict.py:108-133 | every aspect-ratio choice resolves for every base size, with the longer side equal to a non-negative size; every format choice with quality 1..100 (inside the persister's 0..100) is saved |
| `Predictor.OfferedModesAreTuned` | flux-dev/predict.py:94-102 | each offered speed-mode label leads to disable, enable and `set_params` with that mode's factor |

## Left out

- `flux-schnell/predict.py` is not part of this model. It only configures and calls third-party libraries and has no logic of its own.
- `Predictor.setup` (model loading, CUDA placement, `smash`) is not modelled. `Predictor.Predictor` is built from an already set-up `Pipeline`.
- The pipeline call (line 189) is the function parameter `run`, so the same arguments always give the same image. What an unseeded run produces, and any failure raised inside the pipeline, are not modelled.
- Torch generators are reduced to the seed they carry (`Option<int>`).
- PIL encoding and file I/O are modelled as a `Storage` object: a set of folders and a map from path to (image, format, options). Only the two OSErrors of opening a file (missing folder, path is a folder) are modelled; permissions, full disks and encoder failures are not.
- `tempfile.mkdtemp` picks its name at random; the name is the `outputDir` parameter, and that it is new is the `FreshDirectory` precondition. `mkdtemp` failing is not modelled.
- Persist.PlanSave: `Path.resolve` is not modelled. Symlinks are not followed, and a `..` piece in a text index is kept as a path component, while `resolve` would fold it with the component before it. `predict` passes only the index `0`, where this cannot arise.
- Predictor.Predictor.Predict: `torch.Generator.manual_seed` raises RuntimeError for a seed outside [-2^63, 2^64 - 1], after the dimensions are resolved and before the helper is tuned. The model passes every integer seed on and does not model that error.
- Floating-point behaviour of `width / height` and `int(...)` is not modelled. Division is exact, so results can differ from IEEE division at rounding boundaries.
- Speed factors are integer tenths, not floats.
- `print` logging is left out, including the warning for a missing helper and the logged factors, which differ from the factors set.
- The host layer's declared choices and bounds are not enforced. They are stated as the lemmas `Predictor.AdmittedRequestsValidate` and `Predictor.OfferedModesAreTuned`.
- Text.ParseInt: does not accept the surrounding whitespace, `_` digit separators or non-ASCII digits that Python's `int()` also accepts.
- Persist.FileNameInjective: holds for numeric indices only. An `index` given as a string containing `_` or `.` can make two names collide.
- Tuning.CacheHelper.Disable: the effect of `disable()`/`enable()` on the acceleration layer's internal parameters is unknown, so the model keeps the speed factor unchanged across them.
- Concurrency is not modelled. Requests run one at a time against the shared pipeline.
