/** The `Classifier` record of the face-recognition tester: one cascade
    detector with its display name, colour and label position, and the
    running count of rectangles it has reported. Its two formatting
    operations are the live label drawn on every frame and the fixed-width
    line printed in the final report. */
module Classifiers {
  import opened PyText
  import opened Numerals

  /** A BGR colour triple; carried for drawing only. */
  datatype Color = Bgr(blue: int, green: int, red: int)

  /** An (x, y) pixel position; carried for drawing only. */
  datatype Point = Point(x: int, y: int)

  /** A loaded cascade detector, identified by the definition file it was
      loaded from. What it detects is outside the model: the tester only
      sees how many rectangles it returns for a frame. */
  datatype Cascade = Cascade(definitionFile: string)

  /** Width of the name column of a report line. */
  const NameWidth: nat := 20
  /** Number of spaces appended to the name before it is cut to width. */
  const NamePadding: nat := 100
  /** Width of the integer part of the percentage. */
  const WholeWidth: nat := 3
  /** Width of the fractional part of the percentage. */
  const FractionWidth: nat := 3
  /** Name, integer part, point, fractional part, then " %". */
  const ReportWidth: nat := NameWidth + WholeWidth + 1 + FractionWidth + 2

  /** `(name + " " * 100)[:20]`: the name padded with spaces or cut to
      exactly twenty characters. */
  function NameField(name: string): (r: string)
    ensures |r| == NameWidth
    ensures |name| >= NameWidth ==> r == name[..NameWidth]
    ensures |name| < NameWidth ==> r == name + Repeat(' ', NameWidth - |name|)
  {
    var padded := name + Repeat(' ', NamePadding);
    assert |name| < NameWidth ==> padded[..NameWidth] == name + Repeat(' ', NameWidth - |name|);
    Take(padded, NameWidth)
  }

  /** `("000" + whole)[-3:]`: for the decimal rendering of a number, its
      three low digits, zero-padded on the left. */
  function WholeField(whole: string): (r: string)
    ensures IsCanonical(whole) ==> r == FixedDigits(Value(whole), WholeWidth)
  {
    var r := TakeLast("000" + whole, WholeWidth);
    assert IsCanonical(whole) ==> r == FixedDigits(Value(whole), WholeWidth) by {
      if IsCanonical(whole) {
        StrOfValue(whole);
        assert "000" == Repeat('0', 3);
        ZeroPaddedSuffix(Value(whole), 3, 3);
      }
    }
    r
  }

  /** `(fraction + "000")[:3]`: the first three characters, right-padded
      with zeros. */
  function FractionField(fraction: string): (r: string)
    ensures |r| == FractionWidth
    ensures |fraction| >= FractionWidth ==> r == fraction[..FractionWidth]
    ensures |fraction| < FractionWidth ==> r == fraction + Repeat('0', FractionWidth - |fraction|)
  {
    var padded := fraction + "000";
    assert |fraction| < 3 ==> padded[..3] == fraction + Repeat('0', 3 - |fraction|);
    Take(padded, FractionWidth)
  }

  /** The report line the tester means to print for `counter` hits in
      `totalFrames` frames: the name column, the three low digits of the
      whole percentage `100 * counter / totalFrames`, a point, the first
      three digits of its fractional part truncated, and " %". */
  function ExpectedLine(name: string, counter: nat, totalFrames: nat): (r: string)
    requires totalFrames > 0
    ensures |r| == ReportWidth
  {
    NameField(name) + FixedDigits(Quotient(100 * counter, totalFrames), WholeWidth) + "."
      + FractionDigits(100 * counter, totalFrames, FractionWidth) + " %"
  }

  /** The live label the tester means to draw: the name, a space and the
      count in decimal. */
  function LiveLabel(name: string, count: nat): Option<string>
  {
    Some(name + " " + Str(count))
  }

  /** What `(name + " {}").format(count)` gives: the label template a
      classifier called `name` is built with, filled in with `count`. For a
      name without braces that is the intended live label; a brace in the
      name is read by `str.format` as part of a field or an escape. */
  function Label(name: string, count: nat): (r: Option<string>)
    ensures NoBraces(name) ==> r == LiveLabel(name, count)
  {
    var r := Format(name + " {}", Str(count), false);
    if NoBraces(name) then
      BraceFreeTemplate(name, Str(count));
      r
    else r
  }

  /** A brace-free name's template fills in to the name, a space and the
      argument. */
  lemma BraceFreeTemplate(name: string, arg: string)
    requires NoBraces(name)
    ensures Format(name + " {}", arg, false) == Some(name + " " + arg)
  {
    assert NoBraces(name + " ");
    assert name + " {}" == (name + " ") + "{}";
    FormatLiteralThenField(name + " ", arg);
  }

  /** The columns of a report line and the numbers they denote. The integer
      column is exact below 1000 percent; at 1000 percent or more (more hits
      than ten per frame) only its last three digits are kept. */
  lemma ExpectedLineColumns(name: string, counter: nat, totalFrames: nat)
    requires totalFrames > 0
    ensures var r := ExpectedLine(name, counter, totalFrames);
      var whole, fraction := r[20..23], r[24..27];
      && r[..20] == NameField(name)
      && r[23] == '.'
      && r[27..] == " %"
      && IsDigits(whole) && IsDigits(fraction)
      && Value(whole) == Quotient(100 * counter, totalFrames) % 1000
      && Value(fraction) == Quotient(100 * counter * 1000, totalFrames) % 1000
      && (Quotient(100 * counter, totalFrames) < 1000 ==>
            Value(whole) == Quotient(100 * counter, totalFrames))
  {
    var r := ExpectedLine(name, counter, totalFrames);
    var whole := Quotient(100 * counter, totalFrames);
    var thousandths := Quotient(100 * counter * 1000, totalFrames);
    var w, f := FixedDigits(whole, 3), FixedDigits(thousandths, 3);
    assert r == NameField(name) + w + "." + f + " %" by {
      assert Pow10(3) == 1000;
    }
    assert r[20..23] == w && r[24..27] == f;
    ThreeDigitField(whole);
    ThreeDigitField(thousandths);
  }

  /** A three-digit field denotes its number modulo 1000, and the number
      itself when that is below 1000. */
  lemma ThreeDigitField(n: nat)
    ensures IsDigits(FixedDigits(n, 3))
    ensures Value(FixedDigits(n, 3)) == n % 1000
    ensures n < 1000 ==> Value(FixedDigits(n, 3)) == n
  {
    FixedDigitsValue(n, 3);
    assert Pow10(3) == 1000;
    if n < 1000 {
      DivModUnique(n, 1000, 0, n);
    }
  }

  /** 40 hits in 100 frames print as 40 percent with three zero decimals,
      after the name padded to twenty characters. */
  lemma FortyPercentLine()
    ensures ExpectedLine("Default", 40, 100) == "Default             040.000 %"
  {
    FortyPercentWhole();
    FortyPercentFraction();
    DefaultNameField();
  }

  lemma DefaultNameField()
    ensures NameField("Default") == "Default             "
  {
    assert Repeat(' ', 13) == "             ";
  }

  lemma FortyPercentWhole()
    ensures FixedDigits(Quotient(4000, 100), 3) == "040"
  {
    DivModUnique(4000, 100, 40, 0);
    FixedDigitsThree(40);
  }

  lemma FortyPercentFraction()
    ensures FractionDigits(4000, 100, 3) == "000"
  {
    assert Pow10(3) == 1000;
    DivModUnique(4000000, 100, 40000, 0);
    FixedDigitsThree(40000);
  }

  /** Truncation, not rounding: 2 hits in 3 frames are 66.666... percent. */
  lemma TwoThirdsLine()
    ensures ExpectedLine("Alt2", 2, 3)[NameWidth..] == "066.666 %"
  {
    ExpectedLineTail("Alt2", 2, 3);
    TwoThirdsWhole();
    TwoThirdsFraction();
  }

  lemma TwoThirdsWhole()
    ensures FixedDigits(Quotient(200, 3), 3) == "066"
  {
    DivModUnique(200, 3, 66, 2);
    FixedDigitsThree(66);
  }

  lemma TwoThirdsFraction()
    ensures FractionDigits(200, 3, 3) == "666"
  {
    assert Pow10(3) == 1000;
    DivModUnique(200000, 3, 66666, 2);
    FixedDigitsThree(66666);
  }

  /** More hits than frames: 12 hits in one frame are 1200 percent, printed
      with only the last three integer digits. */
  lemma OverThousandPercentLine()
    ensures ExpectedLine("AltTree", 12, 1)[NameWidth..] == "200.000 %"
  {
    ExpectedLineTail("AltTree", 12, 1);
    OverThousandPercentWhole();
    OverThousandPercentFraction();
  }

  lemma OverThousandPercentWhole()
    ensures FixedDigits(Quotient(1200, 1), 3) == "200"
  {
    DivModUnique(1200, 1, 1200, 0);
    FixedDigitsThree(1200);
  }

  lemma OverThousandPercentFraction()
    ensures FractionDigits(1200, 1, 3) == "000"
  {
    assert Pow10(3) == 1000;
    DivModUnique(1200000, 1, 1200000, 0);
    FixedDigitsThree(1200000);
  }

  /** A report line without its name column. */
  lemma ExpectedLineTail(name: string, counter: nat, totalFrames: nat)
    requires totalFrames > 0
    ensures ExpectedLine(name, counter, totalFrames)[NameWidth..]
      == FixedDigits(Quotient(100 * counter, totalFrames), WholeWidth) + "."
         + FractionDigits(100 * counter, totalFrames, FractionWidth) + " %"
  {
  }

  /** The three digits of a three-digit field, most significant first. */
  lemma FixedDigitsThree(n: nat)
    ensures FixedDigits(n, 3) == [Digit(n / 10 / 10 % 10), Digit(n / 10 % 10), Digit(n % 10)]
  {
    assert FixedDigits(n / 10 / 10 / 10, 0) == [];
  }

  /** The tester never reassigns a classifier's name, label template,
      colour, origin or cascade after construction, so they are constants
      here; only the counter changes. */
  class Classifier {
    const name: string
    const nameFormat: string
    const color: Color
    const org: Point
    const cascade: Cascade
    var counter: nat

    /** The label template is the name followed by a space and one `{}`
        field, as the constructor sets it. */
    ghost predicate Valid()
    {
      nameFormat == name + " {}"
    }

    constructor (name: string, color: Color, org: Point, cascade: Cascade)
      ensures Valid()
      ensures this.name == name && this.color == color && this.org == org
      ensures this.cascade == cascade
      ensures nameFormat == name + " {}"
      ensures counter == 0
    {
      this.name := name;
      this.nameFormat := name + " {}";
      this.color := color;
      this.org := org;
      this.cascade := cascade;
      this.counter := 0;
    }

    /** `nameFormat.format(counter)`: the live label, the name followed by a
        space and the current count. `None` stands for the exception
        `str.format` raises when a brace in the name makes the template
        malformed. */
    function NameWithCounts(): (r: Option<string>)
      reads this
      requires Valid()
      ensures r == Label(name, counter)
      ensures NoBraces(name) ==> r == LiveLabel(name, counter)
    {
      var r := Format(nameFormat, Str(counter), false);
      assert r == Label(name, counter);
      r
    }

    /** The report line: the name column, `str(100 * counter / totalFrames)`
        split at its point, the integer part zero-padded or cut to three
        digits, the fractional part padded or cut to three digits, and
        " %". A zero `totalFrames` is a division by zero in the tester. */
    function NameWithPercentage(totalFrames: nat): (r: string)
      reads this
      requires totalFrames > 0
      ensures r == ExpectedLine(name, counter, totalFrames)
    {
      var percentage := FloatStr(100 * counter, totalFrames);
      var parts := Split(percentage, '.');
      var whole := Quotient(100 * counter, totalFrames);
      FloatStrSplit(100 * counter, totalFrames);
      assert WholeField(parts[0]) == FixedDigits(whole, WholeWidth) by {
        StrValue(whole);
      }
      assert FractionField(parts[1]) == FractionDigits(100 * counter, totalFrames, FractionWidth) by {
        FloatFractionPadded(100 * counter, totalFrames);
      }
      NameField(name) + WholeField(parts[0]) + "." + FractionField(parts[1]) + " %"
    }

    /** One more detected rectangle: the count goes up by exactly one (the
        other fields are constants). */
    method IncrementCounter()
      modifies this`counter
      ensures counter == old(counter) + 1
    {
      counter := counter + 1;
    }
  }
}
