/**
 * The pieces of Python's text handling that predict.py leans on: `str()` of an
 * integer (used in file names), `int()` of a string (used on the aspect
 * ratio's two components) and `str.split` on one separator character.
 */
module Text {
  import opened Results

  predicate IsDigit(c: char) { '0' <= c <= '9' }

  predicate IsSign(c: char) { c == '-' || c == '+' }

  predicate AllDigits(s: string) { forall i :: 0 <= i < |s| ==> IsDigit(s[i]) }

  function DigitValue(c: char): (d: nat)
    requires IsDigit(c)
    ensures d < 10
  {
    c as int - '0' as int
  }

  function DigitChar(d: nat): (c: char)
    requires d < 10
    ensures IsDigit(c) && DigitValue(c) == d
  {
    (d + '0' as int) as char
  }

  /** The decimal digits of `n`, most significant first, without leading zeros. */
  function NatToString(n: nat): (s: string)
    ensures |s| >= 1 && AllDigits(s)
    ensures (s[0] == '0') <==> n == 0
    decreases n
  {
    if n < 10 then [DigitChar(n)] else NatToString(n / 10) + [DigitChar(n % 10)]
  }

  /** The number a non-empty run of decimal digits denotes. */
  function DigitsValue(s: string): nat
    requires AllDigits(s)
    decreases |s|
  {
    if |s| == 0 then 0 else DigitsValue(s[..|s| - 1]) * 10 + DigitValue(s[|s| - 1])
  }

  /** Python's `str(n)` (and `f"{n}"`) of an integer. */
  function IntToString(n: int): (s: string)
    ensures |s| >= 1
    ensures forall i :: 0 <= i < |s| ==> IsDigit(s[i]) || (i == 0 && s[i] == '-')
    ensures (s[0] == '-') <==> n < 0
    // the canonical form: no leading zero, and no "-0"
    ensures s[0] == '0' ==> s == "0"
    ensures s[0] == '-' ==> |s| >= 2 && s[1] != '0'
  {
    if n < 0 then "-" + NatToString(-n) else NatToString(n)
  }

  /**
   * Python's `int(s)` on a string: an optional sign followed by at least one
   * decimal digit; any other text raises ValueError, modelled as `None`.
   */
  function ParseInt(s: string): (r: Option<int>)
    ensures r.Some? ==> |s| >= 1 && AllDigits(s[1..]) && (IsDigit(s[0]) || (IsSign(s[0]) && |s| >= 2))
    ensures |s| >= 1 && AllDigits(s[1..]) && (IsDigit(s[0]) || (IsSign(s[0]) && |s| >= 2)) ==> r.Some?
    ensures r.Some? && s[0] == '-' ==> r.value <= 0
    ensures r.Some? && s[0] != '-' ==> r.value >= 0
  {
    if |s| >= 2 && IsSign(s[0]) && AllDigits(s[1..]) then
      var magnitude: int := DigitsValue(s[1..]);
      Some(if s[0] == '-' then -magnitude else magnitude)
    else if |s| >= 1 && AllDigits(s) then
      Some(DigitsValue(s))
    else
      None
  }

  lemma {:induction false} DigitsValueOfNatToString(n: nat)
    ensures DigitsValue(NatToString(n)) == n
    decreases n
  {
    if n >= 10 {
      DigitsValueOfNatToString(n / 10);
      var s := NatToString(n);
      assert s[..|s| - 1] == NatToString(n / 10);
    }
  }

  /** `int(str(n)) == n` for every integer. */
  lemma ParseIntOfIntToString(n: int)
    ensures ParseInt(IntToString(n)) == Some(n)
  {
    if n < 0 {
      DigitsValueOfNatToString(-n);
      assert IntToString(n)[1..] == NatToString(-n);
    } else {
      DigitsValueOfNatToString(n);
    }
  }

  /** Python's `s.split(sep)`: the maximal runs between separators, empty runs included. */
  function Split(s: string, sep: char): (parts: seq<string>)
    ensures |parts| >= 1
    ensures forall i :: 0 <= i < |parts| ==> sep !in parts[i]
    ensures |s| > 0 && s[0] != sep ==> |parts[0]| > 0 && parts[0][0] == s[0]
    decreases |s|
  {
    if |s| == 0 then [""]
    else
      var rest := Split(s[1..], sep);
      assert s == [s[0]] + s[1..];
      if s[0] == sep then [""] + rest
      else [[s[0]] + rest[0]] + rest[1..]
  }

  /** A text holding the separator splits into at least two pieces. */
  lemma {:induction false} SplitAtLeastTwo(s: string, sep: char)
    requires sep in s
    ensures |Split(s, sep)| >= 2
    decreases |s|
  {
    assert s == [s[0]] + s[1..];
    if s[0] != sep {
      SplitAtLeastTwo(s[1..], sep);
    }
  }

  /** A text ending in another character than the separator has a last piece ending in it. */
  lemma {:induction false} SplitLastPiece(s: string, sep: char)
    requires |s| > 0 && s[|s| - 1] != sep
    ensures var parts := Split(s, sep);
              var last := parts[|parts| - 1];
              |last| > 0 && last[|last| - 1] == s[|s| - 1]
    decreases |s|
  {
    if |s| > 1 {
      var rest := Split(s[1..], sep);
      SplitLastPiece(s[1..], sep);
      assert s[1..][|s[1..]| - 1] == s[|s| - 1];
      if s[0] != sep && |rest| == 1 {
        var piece := [s[0]] + rest[0];
        assert Split(s, sep) == [piece];
        assert piece[|piece| - 1] == rest[0][|rest[0]| - 1];
      }
    }
  }

  /** Python's `sep.join(parts)`. */
  function Join(parts: seq<string>, sep: char): string
    requires |parts| >= 1
    decreases |parts|
  {
    if |parts| == 1 then parts[0] else parts[0] + [sep] + Join(parts[1..], sep)
  }

  lemma JoinCons(first: string, rest: seq<string>, sep: char)
    requires |rest| >= 1
    ensures Join([first] + rest, sep) == first + [sep] + Join(rest, sep)
  {
    assert ([first] + rest)[1..] == rest;
  }

  /** Joining the pieces of a split gives back the text. */
  lemma {:induction false} JoinOfSplit(s: string, sep: char)
    ensures Join(Split(s, sep), sep) == s
    decreases |s|
  {
    if |s| > 0 {
      var rest := Split(s[1..], sep);
      JoinOfSplit(s[1..], sep);
      assert Join(rest, sep) == s[1..];
      assert s == [s[0]] + s[1..];
      if s[0] == sep {
        assert Split(s, sep) == [""] + rest;
        assert ([""] + rest)[1..] == rest;
      } else {
        var parts := [[s[0]] + rest[0]] + rest[1..];
        assert Split(s, sep) == parts;
        assert parts[1..] == rest[1..];
        if |rest| > 1 {
          assert Join(parts, sep) == parts[0] + [sep] + Join(rest[1..], sep);
          assert Join(rest, sep) == rest[0] + [sep] + Join(rest[1..], sep);
        }
      }
    }
  }

  lemma {:induction false} SplitWithoutSeparator(a: string, sep: char)
    requires sep !in a
    ensures Split(a, sep) == [a]
    decreases |a|
  {
    if |a| > 0 {
      SplitWithoutSeparator(a[1..], sep);
      assert [a[0]] + a[1..] == a;
    }
  }

  lemma {:induction false} SplitAtSeparator(a: string, b: string, sep: char)
    requires sep !in a
    ensures Split(a + [sep] + b, sep) == [a] + Split(b, sep)
    decreases |a|
  {
    var s := a + [sep] + b;
    if |a| == 0 {
      assert s[1..] == b;
    } else {
      SplitAtSeparator(a[1..], b, sep);
      assert s[1..] == a[1..] + [sep] + b;
      assert [a[0]] + a[1..] == a;
    }
  }

  /** Splitting a join of separator-free pieces gives back the pieces. */
  lemma {:induction false} SplitOfJoin(parts: seq<string>, sep: char)
    requires |parts| >= 1
    requires forall i :: 0 <= i < |parts| ==> sep !in parts[i]
    ensures Split(Join(parts, sep), sep) == parts
    decreases |parts|
  {
    if |parts| == 1 {
      SplitWithoutSeparator(parts[0], sep);
    } else {
      SplitOfJoin(parts[1..], sep);
      SplitAtSeparator(parts[0], Join(parts[1..], sep), sep);
      assert [parts[0]] + parts[1..] == parts;
    }
  }
}
