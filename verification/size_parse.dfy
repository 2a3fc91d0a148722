/** `str2size`: turns the size column of `du -sh` ("0", "4.0K", "12M", ...)
    into a number, scaling the K, M, G and T suffixes by powers of 1000. */
module SizeParse {
  import opened Results
  import opened Text

  /** What `str2size` hands back: a number, Python's implicit `None` when no
      branch applies, or the ValueError `float(...)` raises. */
  datatype Parsed = Size(value: real) | NoSize | Malformed

  /** The suffix letters, in the order `str2size` checks them. */
  datatype Unit = K | M | G | T

  function Letter(u: Unit): char {
    match u
    case K => 'K'
    case M => 'M'
    case G => 'G'
    case T => 'T'
  }

  /** Position of the unit in the checking order, which is also its power of 1000. */
  function Rank(u: Unit): nat {
    match u
    case K => 1
    case M => 2
    case G => 3
    case T => 4
  }

  function Pow(b: nat, e: nat): (r: nat)
    ensures b > 0 ==> r > 0
  {
    if e == 0 then 1 else b * Pow(b, e - 1)
  }

  function DigitValue(c: char): nat
    requires IsDigit(c)
  {
    (c as int) - ('0' as int)
  }

  /** The decimal value of a string of ASCII digits (0 for the empty string). */
  function DigitsValue(s: string): nat
    requires AllDigits(s)
  {
    if |s| == 0 then 0 else DigitsValue(s[..|s| - 1]) * 10 + DigitValue(s[|s| - 1])
  }

  /** `str.isnumeric`, restricted to ASCII digits; false on the empty string. */
  predicate IsNumeric(s: string) {
    |s| > 0 && AllDigits(s)
  }

  /** The exact value of `<whole>.<frac>`. */
  function DecimalValue(whole: nat, frac: string): (v: real)
    requires AllDigits(frac)
    ensures v >= whole as real
  {
    whole as real + DigitsValue(frac) as real / Pow(10, |frac|) as real
  }

  /** `t` has a point at `i` with only digits on either side and at least one
      digit in all: the `<digits>.<digits>` form of a `du -h` size. */
  predicate PointForm(t: string, i: int) {
    0 <= i < |t| && t[i] == '.' && AllDigits(t[..i]) && AllDigits(t[i + 1..]) && |t| > 1
  }

  /** A point preceded only by digits is the first point. */
  lemma PointFormIsFirstPoint(t: string, i: int)
    requires PointForm(t, i)
    ensures IndexOf(t, '.') == i
  {
  }

  /** `float(t)` on the plain decimal forms `du` prints: digits with at most one
      point and at least one digit, read as an exact decimal. */
  function ParseDecimal(t: string): (r: Option<real>)
    ensures IsNumeric(t) ==> r == Some(DigitsValue(t) as real)
    ensures forall i :: PointForm(t, i) ==> r == Some(DecimalValue(DigitsValue(t[..i]), t[i + 1..]))
    // everything else makes `float` raise
    ensures r.None? <==> !IsNumeric(t) && forall i :: !PointForm(t, i)
    ensures r.Some? ==> |t| > 0 && r.value >= 0.0
  {
    if '.' in t then
      var i := IndexOf(t, '.');
      var whole := t[..i];
      var frac := t[i + 1..];
      assert !IsNumeric(t) by {
        assert !IsDigit(t[i]);
      }
      assert forall k :: PointForm(t, k) ==> k == i by {
        forall k | PointForm(t, k)
          ensures k == i
        {
          PointFormIsFirstPoint(t, k);
        }
      }
      if AllDigits(whole) && AllDigits(frac) && |whole| + |frac| > 0 then
        assert PointForm(t, i);
        Some(DecimalValue(DigitsValue(whole), frac))
      else None
    else
      assert forall k :: !PointForm(t, k);
      if IsNumeric(t) then Some(DigitsValue(t) as real)
      else None
  }

  /** `float` reads `<w>.<f>` as the exact decimal the digits spell. */
  lemma ParseDecimalOfParts(w: string, f: string)
    requires AllDigits(w) && AllDigits(f) && |w| + |f| > 0
    ensures ParseDecimal(w + "." + f) == Some(DecimalValue(DigitsValue(w), f))
  {
    var t := w + "." + f;
    assert t[|w|] == '.' && t[..|w|] == w && t[|w| + 1..] == f;
    assert PointForm(t, |w|);
  }

  /** 1000 to the unit's rank: 1000 for K up to 1000^4 for T. */
  function Factor(u: Unit): (f: real)
    ensures f >= 1000.0
  {
    Pow(1000, Rank(u)) as real
  }

  /** Multiplies a parsed prefix by the unit's factor; a prefix `float`
      rejects becomes the ValueError. */
  function Scaled(p: Option<real>, u: Unit): (r: Parsed)
    ensures p.None? ==> r == Malformed
    ensures p.Some? ==> r == Size(p.value * Factor(u))
    ensures r.Size? && p.value >= 0.0 ==> r.value >= 0.0
  {
    match p
    case None => Malformed
    case Some(v) => Size(v * Factor(u))
  }

  /** Some suffix letter occurs in `s`. */
  predicate HasUnitLetter(s: string) {
    'K' in s || 'M' in s || 'G' in s || 'T' in s
  }

  /** The suffix letters in the order `str2size` checks them. */
  const Priority: seq<Unit> := [K, M, G, T]

  /** The `elif` chain: the first unit of `us` whose letter occurs in `s` scales
      the text before that letter's first occurrence; `None` when none occurs. */
  function ScaleByFirstUnit(s: string, us: seq<Unit>): (r: Parsed)
    ensures r == NoSize <==> forall i :: 0 <= i < |us| ==> Letter(us[i]) !in s
    // the first unit whose letter occurs decides
    ensures forall j :: 0 <= j < |us| && Letter(us[j]) in s
                        && (forall h :: 0 <= h < j ==> Letter(us[h]) !in s)
                        ==> r == Scaled(ParseDecimal(FirstField(s, Letter(us[j]))), us[j])
  {
    if |us| == 0 then NoSize
    else if Letter(us[0]) in s then Scaled(ParseDecimal(FirstField(s, Letter(us[0]))), us[0])
    else
      assert forall h :: 1 <= h < |us| ==> us[h] == us[1..][h - 1];
      ScaleByFirstUnit(s, us[1..])
  }

  /** `str2size(sizestr)`. */
  function Str2Size(s: string): (r: Parsed)
    // a bare number is taken as it stands
    ensures IsNumeric(s) ==> r == Size(DigitsValue(s) as real)
    // None exactly when the string is neither a bare number nor carries a suffix letter
    ensures r == NoSize <==> !IsNumeric(s) && !HasUnitLetter(s)
  {
    if IsNumeric(s) then Size(DigitsValue(s) as real)
    else
      assert |Priority| == 4 && Letter(Priority[0]) == 'K' && Letter(Priority[1]) == 'M'
          && Letter(Priority[2]) == 'G' && Letter(Priority[3]) == 'T';
      ScaleByFirstUnit(s, Priority)
  }

  /** The first suffix letter present in the order K, M, G, T decides, whatever
      other letters follow it: the text before that letter's first occurrence is
      read as a decimal and scaled by the unit's factor. */
  lemma SuffixPriority(s: string, u: Unit)
    requires !IsNumeric(s) && Letter(u) in s
    requires forall v: Unit :: Rank(v) < Rank(u) ==> Letter(v) !in s
    ensures Str2Size(s) == Scaled(ParseDecimal(FirstField(s, Letter(u))), u)
  {
    var f := Scaled(ParseDecimal(FirstField(s, Letter(u))), u);
    assert Priority[1..] == [M, G, T] && Priority[2..] == [G, T] && Priority[3..] == [T];
    match u
    case K =>
    case M =>
      assert ScaleByFirstUnit(s, Priority) == ScaleByFirstUnit(s, [M, G, T]);
    case G =>
      assert ScaleByFirstUnit(s, Priority) == ScaleByFirstUnit(s, [M, G, T]);
      assert ScaleByFirstUnit(s, [M, G, T]) == ScaleByFirstUnit(s, [G, T]);
    case T =>
      assert ScaleByFirstUnit(s, Priority) == ScaleByFirstUnit(s, [M, G, T]);
      assert ScaleByFirstUnit(s, [M, G, T]) == ScaleByFirstUnit(s, [G, T]);
      assert ScaleByFirstUnit(s, [G, T]) == ScaleByFirstUnit(s, [T]);
  }

  /** The usual decimal rendering of a natural number: the reference that the
      parser is checked against. */
  function NatToString(n: nat): (s: string)
    ensures IsNumeric(s)
  {
    if n < 10 then ['0' + n as char]
    else NatToString(n / 10) + ['0' + (n % 10) as char]
  }

  lemma {:induction false} DigitsValueOfNatToString(n: nat)
    ensures DigitsValue(NatToString(n)) == n
  {
    var s := NatToString(n);
    if n >= 10 {
      DigitsValueOfNatToString(n / 10);
      assert s[..|s| - 1] == NatToString(n / 10);
    }
  }

  /** Reading back a printed whole number gives that number. */
  lemma NumericRoundTrip(n: nat)
    ensures Str2Size(NatToString(n)) == Size(n as real)
  {
    DigitsValueOfNatToString(n);
  }

  lemma DigitsHaveNoLetter(s: string, u: Unit)
    requires AllDigits(s)
    ensures Letter(u) !in s && '.' !in s
  {
  }

  /** `float` reads `<digits>.<digits>` as the exact decimal they spell. */
  lemma {:induction false} ParseDecimalWithPoint(whole: nat, frac: string)
    requires AllDigits(frac)
    ensures ParseDecimal(NatToString(whole) + "." + frac) == Some(DecimalValue(whole, frac))
  {
    DigitsValueOfNatToString(whole);
    ParseDecimalOfParts(NatToString(whole), frac);
  }

  /** A string that ends in its only suffix letter is scaled by that letter's
      unit, whatever precedes the letter. */
  lemma {:induction false} TrailingUnitDecides(num: string, u: Unit)
    requires forall v: Unit :: Letter(v) !in num
    ensures Str2Size(num + [Letter(u)]) == Scaled(ParseDecimal(num), u)
  {
    var s := num + [Letter(u)];
    assert !IsNumeric(s) by {
      assert !IsDigit(s[|s| - 1]);
    }
    forall v: Unit | Rank(v) < Rank(u)
      ensures Letter(v) !in s
    {
      assert Letter(v) != Letter(u);
    }
    assert FirstField(s, Letter(u)) == num by {
      assert s[|num|] == Letter(u);
      assert s[..|num|] == num;
    }
    SuffixPriority(s, u);
  }

  lemma DecimalHasNoLetter(w: string, frac: string)
    requires AllDigits(w) && AllDigits(frac)
    ensures forall v: Unit :: Letter(v) !in w + "." + frac
  {
    forall v: Unit
      ensures Letter(v) !in w + "." + frac
    {
      DigitsHaveNoLetter(w, v);
      DigitsHaveNoLetter(frac, v);
      assert w + "." + frac == w + ['.'] + frac;
    }
  }

  /** A `du -h` style size, `<whole>.<frac><unit>`, reads back as
      its decimal value times 1000^rank. */
  lemma {:induction false} SuffixedRoundTrip(whole: nat, frac: string, u: Unit)
    requires AllDigits(frac)
    ensures Str2Size(NatToString(whole) + "." + frac + [Letter(u)])
         == Size(DecimalValue(whole, frac) * Factor(u))
  {
    var num := NatToString(whole) + "." + frac;
    DecimalHasNoLetter(NatToString(whole), frac);
    ParseDecimalWithPoint(whole, frac);
    assert Scaled(ParseDecimal(num), u) == Size(DecimalValue(whole, frac) * Factor(u));
    TrailingUnitDecides(num, u);
  }

  /** A size with a unit and no fraction, as `du -h` prints from 10 upwards. */
  lemma {:induction false} WholeSuffixedRoundTrip(whole: nat, u: Unit)
    ensures Str2Size(NatToString(whole) + [Letter(u)]) == Size(whole as real * Factor(u))
  {
    var w := NatToString(whole);
    DigitsValueOfNatToString(whole);
    forall v: Unit
      ensures Letter(v) !in w
    {
      DigitsHaveNoLetter(w, v);
    }
    assert Scaled(ParseDecimal(w), u) == Size(whole as real * Factor(u));
    TrailingUnitDecides(w, u);
  }

  /** A fraction without a unit is not numeric and carries no suffix: `None`. */
  lemma FractionWithoutUnitIsNone()
    ensures Str2Size("1.5") == NoSize
  {
    var s := "1.5";
    assert !IsDigit(s[1]);
    assert !HasUnitLetter(s) by {
      assert forall i :: 0 <= i < |s| ==> s[i] in {'1', '.', '5'};
    }
  }

  /** K is checked first: in "2KM" the M is ignored and the prefix "2" is scaled by 1000. */
  lemma KiloBeforeMega()
    ensures Str2Size("2KM") == Size(2000.0)
  {
    assert !IsDigit("2KM"[1]);
    assert FirstField("2KM", 'K') == "2" by {
      assert "2KM"[1] == 'K';
    }
    SuffixPriority("2KM", K);
    assert DigitsValue("2") == 2 by {
      assert "2"[..0] == "";
    }
    assert ParseDecimal("2") == Some(2.0) by {
      assert IsNumeric("2");
    }
    assert Factor(K) == 1000.0;
  }

  /** In "2MK" the K still wins, so `float("2M")` raises. */
  lemma KiloWinsEvenWhenLater()
    ensures Str2Size("2MK") == Malformed
  {
    assert !IsDigit("2MK"[1]);
    assert FirstField("2MK", 'K') == "2M" by {
      assert "2MK"[2] == 'K';
      assert 'K' !in "2M";
    }
    assert '.' !in "2M";
    assert !IsDigit("2M"[1]);
  }
}
