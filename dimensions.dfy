/**
 * The aspect-ratio resolver inside `Predictor.predict` (flux-dev/predict.py):
 * the text is split at ':' and both pieces converted with `int`, their
 * quotient is compared with 1, and the longer side becomes `image_size`
 * while the other is scaled by the ratio and truncated toward zero.
 * Division is exact here; the source divides in floating point.
 */
module Dimensions {
  import opened Results
  import opened Text

  /** The exceptions the resolver can raise, each a ValueError or ZeroDivisionError in Python. */
  datatype DimensionError =
    | InvalidLiteral(text: string)  // `int(text)` refused a component
    | NotEnoughValues               // no ':' in the text: one value to unpack into two
    | TooManyValues                 // three or more components
    | ZeroDivision                  // `width / height` with height 0

  /** Pixel sizes handed to the pipeline. */
  datatype Size = Size(width: int, height: int)

  function Abs(x: int): nat { if x < 0 then -x else x }

  /** Python's `int(a / b)`: the exact quotient truncated toward zero. */
  function TruncDiv(a: int, b: int): (q: int)
    requires b != 0
    ensures Abs(q) == Abs(a) / Abs(b)
    ensures (a >= 0) == (b > 0) ==> q >= 0
    ensures (a >= 0) != (b > 0) ==> q <= 0
  {
    var m: int := NatDiv(Abs(a), Abs(b));
    if (a >= 0) == (b > 0) then m else -m
  }

  /** Floor division of naturals. */
  function NatDiv(a: nat, b: nat): nat
    requires b > 0
  {
    a / b
  }

  /** Truncation toward zero: |q| is the largest multiple count of |b| within |a|. */
  lemma TruncDivBounds(a: int, b: int)
    requires b != 0
    ensures var q := TruncDiv(a, b); Abs(q) * Abs(b) <= Abs(a) < (Abs(q) + 1) * Abs(b)
  {
    FloorBounds(Abs(a), Abs(b));
  }

  lemma FloorBounds(a: nat, b: nat)
    requires b > 0
    ensures (a / b) * b <= a < (a / b + 1) * b
  {
    var q, r := a / b, a % b;
    assert a == q * b + r && 0 <= r < b;
    assert (q + 1) * b == q * b + b;
  }

  /**
   * `map(int, text.split(":"))` unpacked into two names. The map is lazy, so
   * `int` runs on the first, second and (when there is one) third component
   * in turn, and unpacking stops at the first failure.
   */
  function ParseAspectRatio(text: string): (r: Result<(int, int), DimensionError>)
    ensures r.Success? <==>
              |Split(text, ':')| == 2 && ParseInt(Split(text, ':')[0]).Some? && ParseInt(Split(text, ':')[1]).Some?
    ensures r.Success? ==> r.value == (ParseInt(Split(text, ':')[0]).value, ParseInt(Split(text, ':')[1]).value)
  {
    var parts := Split(text, ':');
    match ParseInt(parts[0])
    case None => Failure(InvalidLiteral(parts[0]))
    case Some(w) =>
      if |parts| < 2 then Failure(NotEnoughValues)
      else match ParseInt(parts[1])
        case None => Failure(InvalidLiteral(parts[1]))
        case Some(h) =>
          if |parts| == 2 then Success((w, h))
          else match ParseInt(parts[2])
            case None => Failure(InvalidLiteral(parts[2]))
            case Some(_) => Failure(TooManyValues)
  }

  /** `width / height >= 1`, decided exactly: the sign of (w - h) / h. */
  /** `width / height >= 1`, decided on integers with the exact quotient. */
  predicate RatioAtLeastOne(w: int, h: int): (b: bool)
    requires h != 0
    ensures b <==> (w as real) / (h as real) >= 1.0
  {
    RatioAgainstOne(w, h);
    (w - h) * h >= 0
  }

  lemma RatioAgainstOne(w: int, h: int)
    requires h != 0
    ensures (w - h) * h >= 0 <==> (w as real) / (h as real) >= 1.0
  {
    var q := (w as real) / (h as real);
    assert q * (h as real) == w as real;
    if h > 0 {
      assert (w - h) * h >= 0 <==> w >= h;
    } else {
      assert (w - h) * h >= 0 <==> w <= h;
    }
  }

  lemma RatioAtLeastOneOfPositive(w: int, h: int)
    requires w > 0 && h > 0
    ensures RatioAtLeastOne(w, h) <==> w >= h
  {
    if w >= h {
      assert (w - h) * h >= 0;
    } else {
      assert (w - h) * h < 0;
    }
  }

  /** The branch on `ratio >= 1` that picks which side gets `size`. */
  function Resolve(w: int, h: int, size: int): (r: Result<Size, DimensionError>)
    ensures r.Failure? <==> h == 0
    ensures r.Failure? ==> r.error == ZeroDivision
    ensures r.Success? && RatioAtLeastOne(w, h) ==> r.value.width == size
    ensures r.Success? && !RatioAtLeastOne(w, h) ==> r.value.height == size
  {
    if h == 0 then Failure(ZeroDivision)
    else if RatioAtLeastOne(w, h) then
      assert w != 0;
      Success(Size(size, TruncDiv(size * h, w)))
    else
      Success(Size(TruncDiv(size * w, h), size))
  }

  /** The whole computation on lines 137-147: parse, then resolve. */
  function ResolveDimensions(aspectRatio: string, size: int): (r: Result<Size, DimensionError>)
    ensures ParseAspectRatio(aspectRatio).Failure? ==> r == Failure(ParseAspectRatio(aspectRatio).error)
    ensures ParseAspectRatio(aspectRatio).Success? ==>
              var (w, h) := ParseAspectRatio(aspectRatio).value;
              && (r.Success? <==> h != 0)
              && (h == 0 ==> r == Failure(ZeroDivision))
              && (h != 0 && RatioAtLeastOne(w, h) ==> r.value.width == size)
              && (h != 0 && !RatioAtLeastOne(w, h) ==> r.value.height == size)
  {
    match ParseAspectRatio(aspectRatio)
    case Failure(e) => Failure(e)
    case Success((w, h)) => Resolve(w, h, size)
  }

  /** The text `"W:H"` for two integers. */
  function RatioText(w: int, h: int): string
  {
    IntToString(w) + ":" + IntToString(h)
  }

  /** Every `"W:H"` written from two integers parses back to those integers. */
  lemma ParseRatioText(w: int, h: int)
    ensures ParseAspectRatio(RatioText(w, h)) == Success((w, h))
  {
    var a, b := IntToString(w), IntToString(h);
    assert ':' !in a && ':' !in b;
    assert RatioText(w, h) == Join([a, b], ':');
    SplitOfJoin([a, b], ':');
    ParseIntOfIntToString(w);
    ParseIntOfIntToString(h);
  }

  /** A text with no ':' holding one integer has too few values to unpack. */
  lemma OneComponentFails(n: int, size: int)
    ensures ResolveDimensions(IntToString(n), size) == Failure(NotEnoughValues)
  {
    SplitWithoutSeparator(IntToString(n), ':');
    ParseIntOfIntToString(n);
  }

  /**
   * Landscape or square (W >= H): the width is the base size and the height
   * is the floor of size * H / W, never more than the width.
   */
  lemma ResolveLandscape(w: int, h: int, size: int)
    requires w > 0 && h > 0 && size >= 0 && w >= h
    ensures Resolve(w, h, size) == Success(Size(size, size * h / w))
    ensures var short := size * h / w; short * w <= size * h < (short + 1) * w
    ensures size * h / w <= size
  {
    RatioAtLeastOneOfPositive(w, h);
    var short := size * h / w;
    FloorBounds(size * h, w);
    assert size * h <= size * w;
    assert short * w <= size * w;
  }

  /**
   * Portrait (W < H): the height is the base size and the width is the floor
   * of size * W / H, strictly below the height whenever the size is positive.
   */
  lemma ResolvePortrait(w: int, h: int, size: int)
    requires w > 0 && h > 0 && size >= 0 && w < h
    ensures Resolve(w, h, size) == Success(Size(size * w / h, size))
    ensures var short := size * w / h; short * h <= size * w < (short + 1) * h
    ensures size > 0 ==> size * w / h < size
  {
    RatioAtLeastOneOfPositive(w, h);
    var short := size * w / h;
    FloorBounds(size * w, h);
    if size > 0 {
      assert size * w < size * h;
      assert short * h < size * h;
    }
  }

  /** For positive W, H and size the longer side of `"W:H"` is always the base size. */
  lemma LongerSideIsSize(w: int, h: int, size: int)
    requires w > 0 && h > 0 && size >= 0
    ensures ResolveDimensions(RatioText(w, h), size).Success?
    ensures var s := ResolveDimensions(RatioText(w, h), size).value;
              (if s.width >= s.height then s.width else s.height) == size
              && 0 <= s.width && 0 <= s.height
  {
    ParseRatioText(w, h);
    if w >= h { ResolveLandscape(w, h, size); } else { ResolvePortrait(w, h, size); }
  }

  lemma SixteenText()
    ensures IntToString(16) == "16" && IntToString(9) == "9"
  {
    assert NatToString(1) == "1";
    assert DigitChar(6) == '6';
  }

  lemma SixteenByNine()
    ensures ResolveDimensions("16:9", 1024) == Success(Size(1024, 576))
  {
    var text := RatioText(16, 9);
    ParseRatioText(16, 9);
    ResolveLandscape(16, 9, 1024);
    assert ResolveDimensions(text, 1024) == Success(Size(1024, 576));
    SixteenText();
    assert text == "16:9";
  }

  lemma NineBySixteen()
    ensures ResolveDimensions("9:16", 1024) == Success(Size(576, 1024))
  {
    var text := RatioText(9, 16);
    ParseRatioText(9, 16);
    ResolvePortrait(9, 16, 1024);
    assert ResolveDimensions(text, 1024) == Success(Size(576, 1024));
    SixteenText();
    assert text == "9:16";
  }

  /** A zero height divides by zero, whatever the base size. */
  lemma ZeroHeightFails(w: int, size: int)
    ensures ResolveDimensions(RatioText(w, 0), size) == Failure(ZeroDivision)
  {
    ParseRatioText(w, 0);
  }

  /** Three components fail on unpacking, even when all three are integers. */
  lemma ThreeComponentsFail(a: int, b: int, c: int, size: int)
    ensures ResolveDimensions(RatioText(a, b) + ":" + IntToString(c), size) == Failure(TooManyValues)
  {
    var x, y, z := IntToString(a), IntToString(b), IntToString(c);
    var parts := [x, y, z];
    assert parts[1..] == [y, z] && [y, z][1..] == [z];
    assert Join([z], ':') == z;
    assert Join([y, z], ':') == y + ":" + z;
    assert Join(parts, ':') == x + ":" + (y + ":" + z);
    assert RatioText(a, b) + ":" + z == Join(parts, ':');
    SplitOfJoin([x, y, z], ':');
    ParseIntOfIntToString(a);
    ParseIntOfIntToString(b);
    ParseIntOfIntToString(c);
  }
}
