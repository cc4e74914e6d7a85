/**
 * `save_image` from flux-dev/predict.py: normalise the format name, check
 * the format and then the quality, build the file name under the output
 * folder and hand the image to the encoder with options that depend on the
 * format. The encoder itself is not modelled; a `Storage` object records
 * which folders exist and which image was written at which path with which
 * options.
 */
module Persist {
  import opened Results
  import opened Text

  /**
   * A filesystem path: whether it starts at the root, and its components.
   * pathlib's `/` splits the joined name at '/'.
   */
  datatype Path = Path(absolute: bool, components: seq<string>) {
    /**
     * `self / name`. A name starting with '/' replaces the path; any other
     * name adds its non-empty pieces other than "." below the path.
     */
    function Child(name: string): (p: Path)
      ensures (|name| == 0 || name[0] != '/') ==>
                p.absolute == absolute && |p.components| >= |components|
                && p.components[..|components|] == components
      ensures '/' !in name && name != "" && name != "." ==>
                p.HasParent() && p.Parent() == this && p.Name() == name
      ensures |name| > 0 && name[0] == '/' ==> p.absolute
    {
      if |name| > 0 && name[0] == '/' then Path(true, Pieces(name))
      else Path(absolute, components + Pieces(name))
    }

    predicate HasParent() { |components| >= 1 }

    function Parent(): Path
      requires HasParent()
    {
      Path(absolute, components[..|components| - 1])
    }

    function Name(): string
      requires HasParent()
    {
      components[|components| - 1]
    }

    /** `this` lies somewhere below `folder`. */
    predicate Below(folder: Path)
    {
      && absolute == folder.absolute
      && |components| > |folder.components|
      && components[..|folder.components|] == folder.components
    }
  }

  /** The pieces pathlib keeps when it parses a name: split at '/', without "" and ".". */
  function Pieces(name: string): (pieces: seq<string>)
    ensures forall i :: 0 <= i < |pieces| ==> '/' !in pieces[i] && pieces[i] != "" && pieces[i] != "."
    ensures '/' !in name && name != "" && name != "." ==> pieces == [name]
    ensures |name| > 0 && name[0] != '/' && name[0] != '.' ==> |pieces| > 0 && pieces[0][0] == name[0]
  {
    var parts := Split(name, '/');
    assert '/' !in name ==> parts == [name] by {
      if '/' !in name { SplitWithoutSeparator(name, '/'); }
    }
    Kept(parts)
  }

  function Kept(parts: seq<string>): (kept: seq<string>)
    requires forall i :: 0 <= i < |parts| ==> '/' !in parts[i]
    ensures forall i :: 0 <= i < |kept| ==> '/' !in kept[i] && kept[i] != "" && kept[i] != "."
    ensures |parts| > 0 && parts[0] != "" && parts[0] != "." ==> |kept| > 0 && kept[0] == parts[0]
    ensures (forall i :: 0 <= i < |parts| ==> parts[i] != "" && parts[i] != ".") ==> kept == parts
    decreases |parts|
  {
    if |parts| == 0 then []
    else if parts[0] == "" || parts[0] == "." then Kept(parts[1..])
    else [parts[0]] + Kept(parts[1..])
  }

  /** The three formats the encoder is asked for. */
  datatype Format = Webp | Png | Jpeg

  function FormatName(f: Format): string
  {
    match f
    case Webp => "webp"
    case Png => "png"
    case Jpeg => "jpeg"
  }

  /** The membership test `output_format in ["webp", "png", "jpeg"]`. */
  function ParseFormat(name: string): (r: Option<Format>)
    ensures r.Some? <==> name in ["webp", "png", "jpeg"]
    ensures r.Some? ==> FormatName(r.value) == name
  {
    if name == "webp" then Some(Webp)
    else if name == "png" then Some(Png)
    else if name == "jpeg" then Some(Jpeg)
    else None
  }

  /** The one rewrite done before the checks: `jpg` is spelled `jpeg`. */
  function Normalise(name: string): (r: string)
    ensures r != "jpg"
    ensures name != "jpg" ==> r == name
    ensures r in ["webp", "png", "jpeg"] <==> name in ["webp", "png", "jpeg", "jpg"]
  {
    if name == "jpg" then "jpeg" else name
  }

  /** `index` is an `int | str`; the f-string prints either as text. */
  datatype Index = Number(n: int) | Tagged(tag: string)

  function IndexText(index: Index): string
  {
    match index
    case Number(n) => IntToString(n)
    case Tagged(t) => t
  }

  /** The keyword arguments given to `image.save` besides the path. */
  datatype EncoderOptions = Defaults | Lossy(quality: int, optimize: bool)

  datatype SavePlan = SavePlan(path: Path, format: Format, options: EncoderOptions)

  /**
   * The two ValueErrors `save_image` raises itself, carrying the value the
   * message prints, and the two OSErrors opening the file for writing can raise.
   */
  datatype SaveError =
    | InvalidFormat(format: string)
    | InvalidQuality(quality: int)
    | FileNotFound(path: Path)    // the folder the file would go in does not exist
    | IsADirectory(path: Path)    // the path names an existing folder

  /** `output_{seed}_{index}`, with `_intermediate_{step}` appended when a step is given. */
  function Stem(seed: int, index: Index, step: Option<int>): string
  {
    "output_" + IntToString(seed) + "_" + IndexText(index) + Marker(step)
  }

  function Marker(step: Option<int>): string
  {
    match step
    case None => ""
    case Some(s) => "_intermediate_" + IntToString(s)
  }

  /** The file name: the stem, a dot and the normalised format name. */
  function FileName(seed: int, index: Index, step: Option<int>, format: Format): string
  {
    Stem(seed, index, step) + "." + FormatName(format)
  }

  /** Only `tail` of `prefix + head + tail + suffix + ext` may hold a '/'. */
  lemma SeparatorInTail(prefix: string, head: string, tail: string, suffix: string, ext: string)
    requires '/' !in prefix && '/' !in head && '/' !in suffix && '/' !in ext
    ensures var s := prefix + head + tail + suffix + ext;
              && |s| >= |prefix| + |ext| && s[..|prefix|] == prefix && s[|s| - |ext|..] == ext
              && ('/' in s <==> '/' in tail)
  {
    var s := prefix + head + tail + suffix + ext;
    assert s[..|prefix|] == prefix;
    assert s[|s| - |ext|..] == ext;
    if '/' in s {
      var i :| 0 <= i < |s| && s[i] == '/';
      assert |prefix| + |head| <= i < |prefix| + |head| + |tail|;
      assert tail[i - |prefix| - |head|] == '/';
    }
    if '/' in tail {
      var j :| 0 <= j < |tail| && tail[j] == '/';
      assert s[|prefix| + |head| + j] == '/';
    }
  }

  /** What `SeparatorInTail` needs to know about the pieces of a file name. */
  lemma FileNamePieces(seed: int, index: Index, step: Option<int>, format: Format)
    ensures '/' !in IntToString(seed) + "_" && '/' !in Marker(step) && '/' !in "." + FormatName(format)
    ensures FileName(seed, index, step, format)
         == "output_" + (IntToString(seed) + "_") + IndexText(index) + Marker(step) + ("." + FormatName(format))
  {
    NoSeparatorInNumber(seed);
    if step.Some? { NoSeparatorInNumber(step.value); }
    FileNameRegrouped("output_", IntToString(seed), "_", IndexText(index), Marker(step), ".", FormatName(format));
  }

  lemma FileNameRegrouped(a: string, b: string, c: string, d: string, e: string, f: string, g: string)
    ensures a + b + c + d + e + f + g == a + (b + c) + d + e + (f + g)
  {
  }

  lemma FileNamePrefix(seed: int, index: Index, step: Option<int>, format: Format)
    ensures |FileName(seed, index, step, format)| > 7 && FileName(seed, index, step, format)[..7] == "output_"
  {
    FileNamePieces(seed, index, step, format);
    SeparatorInTail("output_", IntToString(seed) + "_", IndexText(index), Marker(step), "." + FormatName(format));
  }

  lemma FileNameExtension(seed: int, index: Index, step: Option<int>, format: Format)
    ensures var name, ext := FileName(seed, index, step, format), "." + FormatName(format);
              |name| >= |ext| && name[|name| - |ext|..] == ext
  {
    FileNamePieces(seed, index, step, format);
    SeparatorInTail("output_", IntToString(seed) + "_", IndexText(index), Marker(step), "." + FormatName(format));
  }

  lemma FileNameSeparator(seed: int, index: Index, step: Option<int>, format: Format)
    ensures '/' in FileName(seed, index, step, format) <==> '/' in IndexText(index)
  {
    FileNamePieces(seed, index, step, format);
    SeparatorInTail("output_", IntToString(seed) + "_", IndexText(index), Marker(step), "." + FormatName(format));
  }

  /**
   * Every file name starts with `output_`, ends with the format's extension,
   * and holds a '/' exactly when the index text does.
   */
  lemma FileNameShape(seed: int, index: Index, step: Option<int>, format: Format)
    ensures |FileName(seed, index, step, format)| > 7 && FileName(seed, index, step, format)[..7] == "output_"
    ensures var name, ext := FileName(seed, index, step, format), "." + FormatName(format);
              |name| >= |ext| && name[|name| - |ext|..] == ext
    ensures '/' in FileName(seed, index, step, format) <==> '/' in IndexText(index)
  {
    FileNamePrefix(seed, index, step, format);
    FileNameExtension(seed, index, step, format);
    FileNameSeparator(seed, index, step, format);
  }

  predicate KeptPiece(piece: string) { piece != "" && piece != "." }

  lemma {:induction false} KeptHolds(parts: seq<string>, i: nat)
    requires forall j :: 0 <= j < |parts| ==> '/' !in parts[j]
    requires i < |parts| && KeptPiece(parts[i])
    ensures |Kept(parts)| >= 1
    decreases i
  {
    if i > 0 && !KeptPiece(parts[0]) {
      KeptHolds(parts[1..], i - 1);
    }
  }

  /** A name starting with an ordinary character, ending in neither '/' nor '.', and holding a '/' has several pieces. */
  lemma PiecesOfSplitName(name: string)
    requires |name| > 0 && name[0] != '/' && name[0] != '.'
    requires name[|name| - 1] != '/' && name[|name| - 1] != '.'
    requires '/' in name
    ensures |Pieces(name)| > 1
  {
    var parts := Split(name, '/');
    SplitAtLeastTwo(name, '/');
    SplitLastPiece(name, '/');
    var last := parts[|parts| - 1];
    assert KeptPiece(last) by {
      assert last[|last| - 1] != '.';
    }
    assert KeptPiece(parts[0]);
    assert Kept(parts) == [parts[0]] + Kept(parts[1..]);
    KeptHolds(parts[1..], |parts| - 2);
  }

  /** A file name is never absolute and splits into one piece, or more when the index text holds a '/'. */
  lemma PiecesOfFileName(seed: int, index: Index, step: Option<int>, format: Format)
    ensures var name := FileName(seed, index, step, format);
              name[0] == 'o' && |Pieces(name)| >= 1 && ('/' in IndexText(index) ==> |Pieces(name)| > 1)
  {
    var name := FileName(seed, index, step, format);
    FileNameShape(seed, index, step, format);
    assert name[0] == name[..7][0] == 'o';
    var ext := "." + FormatName(format);
    assert name[|name| - 1] == ext[|ext| - 1];
    assert ext[|ext| - 1] != '/' && ext[|ext| - 1] != '.';
    if '/' in IndexText(index) {
      assert '/' in name;
      PiecesOfSplitName(name);
    }
  }

  /** Where `folder / name` puts a file name: below the folder, directly in it unless the index text holds a '/'. */
  lemma ChildOfFileName(folder: Path, seed: int, index: Index, step: Option<int>, format: Format)
    ensures folder.Child(FileName(seed, index, step, format)).Below(folder)
    ensures var p := folder.Child(FileName(seed, index, step, format));
              '/' !in IndexText(index) ==>
                p.HasParent() && p.Parent() == folder && p.Name() == FileName(seed, index, step, format)
    ensures '/' in IndexText(index) ==>
              |folder.Child(FileName(seed, index, step, format)).components| > |folder.components| + 1
  {
    var name := FileName(seed, index, step, format);
    PiecesOfFileName(seed, index, step, format);
    FileNameShape(seed, index, step, format);
    assert name[0] == 'o';
  }

  /**
   * Everything `save_image` decides before it writes: the error it raises,
   * or the path, format and encoder options of the file it writes.
   */
  function PlanSave(folder: Path, seed: int, index: Index, outputFormat: string,
                    outputQuality: int, step: Option<int>): (r: Result<SavePlan, SaveError>)
    ensures r.Success? <==>
              Normalise(outputFormat) in ["webp", "png", "jpeg"] && 0 <= outputQuality <= 100
    // the format is checked first, and the message names the normalised format
    ensures Normalise(outputFormat) !in ["webp", "png", "jpeg"] ==>
              r == Failure(InvalidFormat(Normalise(outputFormat)))
    ensures Normalise(outputFormat) in ["webp", "png", "jpeg"] && !(0 <= outputQuality <= 100) ==>
              r == Failure(InvalidQuality(outputQuality))
    ensures r.Success? ==> FormatName(r.value.format) == Normalise(outputFormat)
    // the file lies inside the output folder, directly in it unless a text index holds a '/'
    ensures r.Success? ==> r.value.path.Below(folder)
    ensures r.Success? && '/' !in IndexText(index) ==>
              r.value.path.HasParent() && r.value.path.Parent() == folder
              && r.value.path.Name() == FileName(seed, index, step, r.value.format)
    ensures r.Success? && '/' in IndexText(index) ==> |r.value.path.components| > |folder.components| + 1
    // PNG gets the encoder's defaults, the lossy formats the requested quality
    ensures r.Success? ==> (r.value.options == Defaults <==> r.value.format == Png)
    ensures r.Success? && r.value.format != Png ==> r.value.options == Lossy(outputQuality, true)
  {
    var name := Normalise(outputFormat);
    match ParseFormat(name)
    case None => Failure(InvalidFormat(name))
    case Some(format) =>
      if outputQuality < 0 || outputQuality > 100 then Failure(InvalidQuality(outputQuality))
      else
        var path := folder.Child(FileName(seed, index, step, format));
        ChildOfFileName(folder, seed, index, step, format);
        Success(SavePlan(path, format, if format != Png then Lossy(outputQuality, true) else Defaults))
  }

  /** The plan for a known format and a valid quality, spelled out. */
  lemma PlanSaveAccepted(folder: Path, seed: int, index: Index, outputFormat: string,
                         outputQuality: int, step: Option<int>, format: Format)
    requires ParseFormat(Normalise(outputFormat)) == Some(format) && 0 <= outputQuality <= 100
    ensures PlanSave(folder, seed, index, outputFormat, outputQuality, step)
         == Success(SavePlan(folder.Child(FileName(seed, index, step, format)), format,
                             if format != Png then Lossy(outputQuality, true) else Defaults))
  {
  }

  /** `PlanSave` sees the format name only through `Normalise`. */
  lemma PlanSaveOfNormalised(folder: Path, seed: int, index: Index, a: string, b: string,
                             quality: int, step: Option<int>)
    requires Normalise(a) == Normalise(b)
    ensures PlanSave(folder, seed, index, a, quality, step) == PlanSave(folder, seed, index, b, quality, step)
  {
  }

  lemma JpgPlansJpeg(folder: Path, seed: int, index: Index, quality: int, step: Option<int>)
    requires 0 <= quality <= 100
    ensures var r := PlanSave(folder, seed, index, "jpg", quality, step); r.Success? && r.value.format == Jpeg
  {
    var r := PlanSave(folder, seed, index, "jpg", quality, step);
    assert r.Success? && FormatName(r.value.format) == "jpeg";
  }

  lemma JpegExtension(seed: int, index: Index, step: Option<int>)
    ensures var name := FileName(seed, index, step, Jpeg); name[|name| - 5..] == ".jpeg"
  {
    FileNameExtension(seed, index, step, Jpeg);
  }

  /** `jpg` is saved exactly as `jpeg` is, under a `.jpeg` name. */
  lemma JpgSavedAsJpeg(folder: Path, seed: int, index: Index, quality: int, step: Option<int>)
    ensures PlanSave(folder, seed, index, "jpg", quality, step) == PlanSave(folder, seed, index, "jpeg", quality, step)
    ensures var r := PlanSave(folder, seed, index, "jpg", quality, step);
              0 <= quality <= 100 ==>
                r.Success? && r.value.format == Jpeg
                && FileName(seed, index, step, r.value.format)[|FileName(seed, index, step, r.value.format)| - 5..] == ".jpeg"
  {
    assert Normalise("jpg") == "jpeg" == Normalise("jpeg");
    PlanSaveOfNormalised(folder, seed, index, "jpg", "jpeg", quality, step);
    if 0 <= quality <= 100 {
      JpgPlansJpeg(folder, seed, index, quality, step);
      JpegExtension(seed, index, step);
    }
  }

  /** An unknown format fails with the format error, whatever the quality. */
  lemma GifRejected(folder: Path, seed: int, index: Index, quality: int, step: Option<int>)
    ensures PlanSave(folder, seed, index, "gif", quality, step) == Failure(InvalidFormat("gif"))
  {
    assert "gif" !in ["webp", "png", "jpeg"];
  }

  /** The quality bounds are inclusive: 0 and 100 pass, -1 and 101 do not. */
  lemma QualityBounds(folder: Path, seed: int, index: Index, step: Option<int>)
    ensures PlanSave(folder, seed, index, "webp", 0, step).Success?
    ensures PlanSave(folder, seed, index, "webp", 100, step).Success?
    ensures PlanSave(folder, seed, index, "webp", -1, step) == Failure(InvalidQuality(-1))
    ensures PlanSave(folder, seed, index, "webp", 101, step) == Failure(InvalidQuality(101))
  {
  }

  /** Two valid PNG saves that differ only in quality plan the same file. */
  lemma PngIgnoresQuality(folder: Path, seed: int, index: Index, q1: int, q2: int, step: Option<int>)
    requires 0 <= q1 <= 100 && 0 <= q2 <= 100
    ensures PlanSave(folder, seed, index, "png", q1, step) == PlanSave(folder, seed, index, "png", q2, step)
    ensures PlanSave(folder, seed, index, "png", q1, step).Success?
  {
  }

  /** What a file name built from a numeric index encodes. */
  datatype FileKey = FileKey(seed: int, index: int, step: Option<int>, format: Format)

  /** Reads the seed, index, step and format back out of a file name. */
  function ParseFileName(name: string): Option<FileKey>
  {
    var dotted := Split(name, '.');
    if |dotted| != 2 then None
    else
      var fields := Split(dotted[0], '_');
      match ParseFormat(dotted[1])
      case None => None
      case Some(format) =>
        if fields[0] != "output" then None
        else if |fields| == 3 then
          match (ParseInt(fields[1]), ParseInt(fields[2]))
          case (Some(seed), Some(index)) => Some(FileKey(seed, index, None, format))
          case _ => None
        else if |fields| == 5 && fields[3] == "intermediate" then
          match (ParseInt(fields[1]), ParseInt(fields[2]), ParseInt(fields[4]))
          case (Some(seed), Some(index), Some(step)) => Some(FileKey(seed, index, Some(step), format))
          case _ => None
        else None
  }

  lemma NoSeparatorInNumber(n: int)
    ensures '.' !in IntToString(n) && '_' !in IntToString(n) && '/' !in IntToString(n)
  {
  }

  /** The pieces between the underscores of a stem built from a numeric index. */
  function StemFields(seed: int, index: int, step: Option<int>): seq<string>
  {
    var head := ["output", IntToString(seed), IntToString(index)];
    match step
    case None => head
    case Some(k) => head + ["intermediate", IntToString(k)]
  }

  lemma StemHasNoDot(seed: int, index: int, step: Option<int>)
    ensures '.' !in Stem(seed, Number(index), step)
  {
    NoSeparatorInNumber(seed);
    NoSeparatorInNumber(index);
    assert '.' !in Marker(step) by {
      if step.Some? {
        NoSeparatorInNumber(step.value);
      }
    }
    assert '.' !in "output_" && '.' !in "_";
    AbsentFromConcat('.', "output_", IntToString(seed), "_", IntToString(index), Marker(step));
  }

  lemma AbsentFromConcat(x: char, a: string, b: string, c: string, d: string, e: string)
    requires x !in a && x !in b && x !in c && x !in d && x !in e
    ensures x !in a + b + c + d + e
  {
  }

  /** No field of a numeric stem holds an underscore. */
  lemma FieldsWithoutUnderscore(seed: int, index: int, step: Option<int>)
    ensures forall j :: 0 <= j < |StemFields(seed, index, step)| ==> '_' !in StemFields(seed, index, step)[j]
  {
    NoSeparatorInNumber(seed);
    NoSeparatorInNumber(index);
    var fields := StemFields(seed, index, step);
    assert '_' !in "output" && '_' !in "intermediate";
    if step.Some? {
      NoSeparatorInNumber(step.value);
      assert fields == ["output", IntToString(seed), IntToString(index), "intermediate", IntToString(step.value)];
    }
  }

  lemma StemIsJoin(seed: int, index: int, step: Option<int>)
    ensures Join(StemFields(seed, index, step), '_') == Stem(seed, Number(index), step)
  {
    match step {
      case None => ShortStemIsJoin(seed, index);
      case Some(n) =>
        LongStemIsJoin(seed, index, n);
        assert StemFields(seed, index, step)
            == ["output", IntToString(seed), IntToString(index), "intermediate", IntToString(n)];
    }
  }

  lemma ShortStemIsJoin(seed: int, index: int)
    ensures Join(["output", IntToString(seed), IntToString(index)], '_') == Stem(seed, Number(index), None)
  {
    JoinThree("output", IntToString(seed), IntToString(index));
  }

  lemma LongStemIsJoin(seed: int, index: int, step: int)
    ensures var s, i, k := IntToString(seed), IntToString(index), IntToString(step);
              Join(["output", s, i, "intermediate", k], '_') == Stem(seed, Number(index), Some(step))
  {
    var s, i, k := IntToString(seed), IntToString(index), IntToString(step);
    JoinFive("output", s, i, "intermediate", k);
    assert "output_" == "output" + "_";
    assert "_intermediate_" == "_" + "intermediate" + "_";
    assert Marker(Some(step)) == "_intermediate_" + k;
    RegroupFive("output", s, i, "intermediate", k, "output_", "_intermediate_");
  }

  lemma RegroupFive(a: string, b: string, c: string, d: string, e: string, p: string, q: string)
    requires p == a + "_" && q == "_" + d + "_"
    ensures a + "_" + b + "_" + c + "_" + d + "_" + e == p + b + "_" + c + (q + e)
  {
  }

  lemma JoinThree(a: string, b: string, c: string)
    ensures Join([a, b, c], '_') == a + "_" + b + "_" + c
  {
    JoinCons(b, [c], '_');
    JoinCons(a, [b, c], '_');
  }

  lemma JoinFive(a: string, b: string, c: string, d: string, e: string)
    ensures Join([a, b, c, d, e], '_') == a + "_" + b + "_" + c + "_" + d + "_" + e
  {
    JoinCons(d, [e], '_');
    JoinCons(c, [d, e], '_');
    JoinCons(b, [c, d, e], '_');
    JoinCons(a, [b, c, d, e], '_');
  }

  lemma StemSplits(seed: int, index: int, step: Option<int>)
    ensures Split(Stem(seed, Number(index), step), '_') == StemFields(seed, index, step)
  {
    var fields := StemFields(seed, index, step);
    StemIsJoin(seed, index, step);
    FieldsWithoutUnderscore(seed, index, step);
    SplitOfJoin(fields, '_');
  }

  lemma NameSplitsAtDot(stem: string, format: Format)
    requires '.' !in stem
    ensures Split(stem + "." + FormatName(format), '.') == [stem, FormatName(format)]
  {
    var ext := FormatName(format);
    assert [stem, ext][1..] == [ext];
    assert Join([stem, ext], '.') == stem + "." + ext;
    SplitOfJoin([stem, ext], '.');
  }

  /** A name built from a numeric index gives back everything it was built from. */
  lemma ParseShortName(name: string, stem: string, format: Format, s: string, i: string, seed: int, index: int)
    requires Split(name, '.') == [stem, FormatName(format)]
    requires Split(stem, '_') == ["output", s, i]
    requires ParseInt(s) == Some(seed) && ParseInt(i) == Some(index)
    ensures ParseFileName(name) == Some(FileKey(seed, index, None, format))
  {
    assert ParseFormat(FormatName(format)) == Some(format);
  }

  lemma ParseLongName(name: string, stem: string, format: Format, s: string, i: string, k: string,
                      seed: int, index: int, step: int)
    requires Split(name, '.') == [stem, FormatName(format)]
    requires Split(stem, '_') == ["output", s, i, "intermediate", k]
    requires ParseInt(s) == Some(seed) && ParseInt(i) == Some(index) && ParseInt(k) == Some(step)
    ensures ParseFileName(name) == Some(FileKey(seed, index, Some(step), format))
  {
    assert ParseFormat(FormatName(format)) == Some(format);
  }

  lemma FileNameRoundTrip(seed: int, index: int, step: Option<int>, format: Format)
    ensures ParseFileName(FileName(seed, Number(index), step, format)) == Some(FileKey(seed, index, step, format))
  {
    var name := FileName(seed, Number(index), step, format);
    var stem := Stem(seed, Number(index), step);
    var s, i := IntToString(seed), IntToString(index);
    StemHasNoDot(seed, index, step);
    NameSplitsAtDot(stem, format);
    StemSplits(seed, index, step);
    ParseIntOfIntToString(seed);
    ParseIntOfIntToString(index);
    match step {
      case None =>
        ParseShortName(name, stem, format, s, i, seed, index);
      case Some(n) =>
        ParseIntOfIntToString(n);
        assert StemFields(seed, index, step) == ["output", s, i, "intermediate", IntToString(n)];
        ParseLongName(name, stem, format, s, i, IntToString(n), seed, index, n);
    }
  }

  /** Distinct seeds, numeric indices, steps or formats never share a file name. */
  lemma FileNameInjective(seed1: int, index1: int, step1: Option<int>, format1: Format,
                          seed2: int, index2: int, step2: Option<int>, format2: Format)
    requires FileName(seed1, Number(index1), step1, format1) == FileName(seed2, Number(index2), step2, format2)
    ensures seed1 == seed2 && index1 == index2 && step1 == step2 && format1 == format2
  {
    FileNameRoundTrip(seed1, index1, step1, format1);
    FileNameRoundTrip(seed2, index2, step2, format2);
  }

  /** What a write leaves on disk: the image and how it was encoded. */
  datatype Written<I> = Written(image: I, format: Format, options: EncoderOptions)

  /** The disk as `save_image` sees it: the folders that exist and the files written, by path. */
  class Storage<I> {
    var folders: set<Path>
    var files: map<Path, Written<I>>

    constructor (folders: set<Path>)
      ensures this.folders == folders && files == map[]
    {
      this.folders := folders;
      files := map[];
    }

    /** `tempfile.mkdtemp`, given the fresh name it picks. */
    method MakeDirectory(dir: Path)
      modifies this
      ensures folders == old(folders) + {dir} && files == old(files)
    {
      folders := folders + {dir};
    }

    /**
     * `save_image` itself. On an error nothing is written; otherwise exactly
     * the planned path is (re)written and it is returned. Opening the file
     * fails when its folder does not exist or the path is a folder.
     */
    method SaveImage(folder: Path, seed: int, index: Index, image: I, outputFormat: string,
                     outputQuality: int, step: Option<int>) returns (r: Result<Path, SaveError>)
      modifies this
      ensures folders == old(folders)
      ensures var plan := PlanSave(folder, seed, index, outputFormat, outputQuality, step);
                match plan
                case Failure(e) => r == Failure(e) && files == old(files)
                case Success(p) =>
                  if !p.path.HasParent() || p.path.Parent() !in folders then
                    r == Failure(FileNotFound(p.path)) && files == old(files)
                  else if p.path in folders then
                    r == Failure(IsADirectory(p.path)) && files == old(files)
                  else
                    r == Success(p.path) && files == old(files)[p.path := Written(image, p.format, p.options)]
    {
      ghost var plan := PlanSave(folder, seed, index, outputFormat, outputQuality, step);
      var format := outputFormat;
      if format == "jpg" {
        format := "jpeg";
      }
      assert format == Normalise(outputFormat);
      if format !in ["webp", "png", "jpeg"] {
        return Failure(InvalidFormat(format));
      }
      if outputQuality < 0 || outputQuality > 100 {
        return Failure(InvalidQuality(outputQuality));
      }
      var encoded := ParseFormat(format).value;
      var path := folder.Child(FileName(seed, index, step, encoded));
      PlanSaveAccepted(folder, seed, index, outputFormat, outputQuality, step, encoded);
      assert format != "png" <==> encoded != Png;
      if format != "png" {
        r := Write(path, Written(image, encoded, Lossy(outputQuality, true)));
      } else {
        r := Write(path, Written(image, encoded, Defaults));
      }
    }

    /**
     * `image.save(str(path))`: opening the file fails when its folder does
     * not exist or the path is a folder; otherwise the file is (re)written.
     */
    method Write(path: Path, content: Written<I>) returns (r: Result<Path, SaveError>)
      modifies this
      ensures folders == old(folders)
      ensures !path.HasParent() || path.Parent() !in folders ==>
                r == Failure(FileNotFound(path)) && files == old(files)
      ensures path.HasParent() && path.Parent() in folders && path in folders ==>
                r == Failure(IsADirectory(path)) && files == old(files)
      ensures path.HasParent() && path.Parent() in folders && path !in folders ==>
                r == Success(path) && files == old(files)[path := content]
    {
      if !path.HasParent() || path.Parent() !in folders {
        return Failure(FileNotFound(path));
      }
      if path in folders {
        return Failure(IsADirectory(path));
      }
      files := files[path := content];
      r := Success(path);
    }
  }
}
