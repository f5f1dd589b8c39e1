/** The timestamp normalisation shared by both Python collectors:
    `datetime(*published_parsed[:6]).strftime("%Y-%m-%d %H:%M:%S")`
    (or the same format applied to the current time). */
module Timestamp {
  import opened StringOrder

  /** The six components `datetime(...)` is built from. */
  datatype Stamp = Stamp(year: int, month: int, day: int, hour: int, minute: int, second: int)

  predicate IsLeapYear(y: int)
  {
    y % 4 == 0 && (y % 100 != 0 || y % 400 == 0)
  }

  function DaysInMonth(y: int, m: int): (n: int)
    requires 1 <= m <= 12
    ensures 28 <= n <= 31
  {
    if m == 2 then (if IsLeapYear(y) then 29 else 28)
    else if m == 4 || m == 6 || m == 9 || m == 11 then 30
    else 31
  }

  /** The ranges Python's `datetime` constructor accepts (MINYEAR = 1,
      MAXYEAR = 9999); any other combination raises ValueError. */
  predicate IsValid(s: Stamp)
  {
    && 1 <= s.year <= 9999
    && 1 <= s.month <= 12
    && 1 <= s.day <= DaysInMonth(s.year, s.month)
    && 0 <= s.hour < 24
    && 0 <= s.minute < 60
    && 0 <= s.second < 60
  }

  /** A value of Python's `datetime` type, to the second. */
  type DateTime = s: Stamp | IsValid(s) witness Stamp(1, 1, 1, 0, 0, 0)

  /** Chronological order: the components compared as a tuple. */
  predicate Before(a: Stamp, b: Stamp)
  {
    a.year < b.year || (a.year == b.year &&
    (a.month < b.month || (a.month == b.month &&
    (a.day < b.day || (a.day == b.day &&
    (a.hour < b.hour || (a.hour == b.hour &&
    (a.minute < b.minute || (a.minute == b.minute &&
    a.second < b.second)))))))))
  }

  function Digit(n: int): (c: char)
    requires 0 <= n < 10
    ensures '0' <= c <= '9'
  {
    ('0' as int + n) as char
  }

  function Pow10(w: nat): (p: nat)
    ensures p >= 1
  {
    if w == 0 then 1 else 10 * Pow10(w - 1)
  }

  /** `n` in decimal, zero-padded on the left to `width` digits. */
  function Digits(n: nat, width: nat): (r: string)
    ensures |r| == width
  {
    if width == 0 then "" else Digits(n / 10, width - 1) + [Digit(n % 10)]
  }

  /** One directive of a strftime format, with the literal text before it. */
  datatype Field = Field(sep: string, value: nat, width: nat)

  /** The directives of "%Y-%m-%d %H:%M:%S": `%Y` is four digits wide, the
      others two. */
  function Fields(t: DateTime): seq<Field>
  {
    [Field("", t.year, 4), Field("-", t.month, 2), Field("-", t.day, 2),
     Field(" ", t.hour, 2), Field(":", t.minute, 2), Field(":", t.second, 2)]
  }

  function Render(fs: seq<Field>): string
  {
    if fs == [] then "" else fs[0].sep + Digits(fs[0].value, fs[0].width) + Render(fs[1..])
  }

  /** `strftime("%Y-%m-%d %H:%M:%S")`. */
  function Format(t: DateTime): (r: string)
  {
    Render(Fields(t))
  }

  /** Two field lists rendered from the same format: same literal text, same
      widths, every value fits its width. */
  ghost predicate SameShape(fs: seq<Field>, gs: seq<Field>)
  {
    && |fs| == |gs|
    && forall i | 0 <= i < |fs| ::
         && fs[i].sep == gs[i].sep && fs[i].width == gs[i].width
         && fs[i].value < Pow10(fs[i].width) && gs[i].value < Pow10(gs[i].width)
  }

  /** The values compared left to right, as a tuple. */
  ghost predicate ValuesLess(fs: seq<Field>, gs: seq<Field>)
    requires |fs| == |gs|
  {
    |fs| > 0 && (fs[0].value < gs[0].value || (fs[0].value == gs[0].value && ValuesLess(fs[1..], gs[1..])))
  }

  lemma SplitEqual(a: string, c: string, b: string, d: string)
    requires |a| == |b|
    ensures a + c == b + d <==> a == b && c == d
  {
    if a + c == b + d {
      assert a == (a + c)[..|a|] && b == (b + d)[..|b|];
      assert c == (a + c)[|a|..] && d == (b + d)[|b|..];
    }
  }

  /** Zero-padded numbers of one width compare as strings the way they
      compare as numbers. */
  lemma {:induction false} DigitsOrder(n: nat, m: nat, width: nat)
    requires n < Pow10(width) && m < Pow10(width)
    ensures LexLess(Digits(n, width), Digits(m, width)) <==> n < m
    ensures Digits(n, width) == Digits(m, width) <==> n == m
  {
    if width > 0 {
      var p, q := Digits(n / 10, width - 1), Digits(m / 10, width - 1);
      var x, y := [Digit(n % 10)], [Digit(m % 10)];
      DigitsOrder(n / 10, m / 10, width - 1);
      LexConcat(p, x, q, y);
      SplitEqual(p, x, q, y);
      assert LexLess(x, y) <==> n % 10 < m % 10 by {
        assert x[1..] == [] && y[1..] == [];
      }
      assert n < m <==> n / 10 < m / 10 || (n / 10 == m / 10 && n % 10 < m % 10);
    }
  }

  lemma SameShapeTail(fs: seq<Field>, gs: seq<Field>)
    requires SameShape(fs, gs) && fs != []
    ensures SameShape(fs[1..], gs[1..])
  {
    forall i | 0 <= i < |fs| - 1 ensures fs[1..][i] == fs[i + 1] && gs[1..][i] == gs[i + 1] { }
  }

  /** Comparing `sep + a + x` with `sep + b + y` when `a` and `b` have the
      same length. */
  lemma SepStep(sep: string, a: string, x: string, b: string, y: string)
    requires |a| == |b|
    ensures LexLess(sep + a + x, sep + b + y) <==> LexLess(a, b) || (a == b && LexLess(x, y))
    ensures sep + a + x == sep + b + y <==> a == b && x == y
  {
    LexConcat(sep + a, x, sep + b, y);
    LexConcat(sep, a, sep, b);
    LexIrreflexive(sep);
    SplitEqual(sep + a, x, sep + b, y);
    SplitEqual(sep, a, sep, b);
  }

  /** Rendering splits into the first field and the rest. */
  lemma RenderStep(fs: seq<Field>, gs: seq<Field>)
    requires fs != [] && gs != [] && fs[0].sep == gs[0].sep && fs[0].width == gs[0].width
    ensures var a, b := Digits(fs[0].value, fs[0].width), Digits(gs[0].value, gs[0].width);
      && (LexLess(Render(fs), Render(gs)) <==> LexLess(a, b) || (a == b && LexLess(Render(fs[1..]), Render(gs[1..]))))
      && (Render(fs) == Render(gs) <==> a == b && Render(fs[1..]) == Render(gs[1..]))
  {
    SepStep(fs[0].sep, Digits(fs[0].value, fs[0].width), Render(fs[1..]),
            Digits(gs[0].value, gs[0].width), Render(gs[1..]));
  }

  /** Rendering two field lists of the same shape compares them as tuples. */
  lemma {:induction false} RenderOrder(fs: seq<Field>, gs: seq<Field>)
    requires SameShape(fs, gs)
    ensures LexLess(Render(fs), Render(gs)) <==> ValuesLess(fs, gs)
  {
    if fs != [] {
      SameShapeTail(fs, gs);
      RenderOrder(fs[1..], gs[1..]);
      DigitsOrder(fs[0].value, gs[0].value, fs[0].width);
      RenderStep(fs, gs);
    }
  }

  /** Two field lists of the same shape render alike only when their
      values agree. */
  lemma {:induction false} RenderInjective(fs: seq<Field>, gs: seq<Field>)
    requires SameShape(fs, gs)
    requires Render(fs) == Render(gs)
    ensures forall i | 0 <= i < |fs| :: fs[i].value == gs[i].value
  {
    if fs != [] {
      SameShapeTail(fs, gs);
      RenderStep(fs, gs);
      DigitsOrder(fs[0].value, gs[0].value, fs[0].width);
      RenderInjective(fs[1..], gs[1..]);
      forall i | 0 <= i < |fs| ensures fs[i].value == gs[i].value {
        if i > 0 { assert fs[i] == fs[1..][i - 1] && gs[i] == gs[1..][i - 1]; }
      }
    }
  }

  /** Every formatted stamp is 19 characters long. */
  lemma {:induction false} FormatLength(t: DateTime)
    ensures |Format(t)| == 19
  {
    var fs := Fields(t);
    assert Render(fs[5..]) == ":" + Digits(t.second, 2) + Render([]);
    assert Render(fs[4..]) == ":" + Digits(t.minute, 2) + Render(fs[5..]);
    assert Render(fs[3..]) == " " + Digits(t.hour, 2) + Render(fs[4..]);
    assert Render(fs[2..]) == "-" + Digits(t.day, 2) + Render(fs[3..]);
    assert Render(fs[1..]) == "-" + Digits(t.month, 2) + Render(fs[2..]);
    assert Render(fs) == "" + Digits(t.year, 4) + Render(fs[1..]);
  }

  /** The time-of-day fields compare as the tuple (hour, minute, second). */
  lemma ClockFieldsLess(a: DateTime, b: DateTime)
    ensures var fs, gs := Fields(a), Fields(b);
      ValuesLess(fs[3..], gs[3..]) <==>
        a.hour < b.hour || (a.hour == b.hour &&
        (a.minute < b.minute || (a.minute == b.minute && a.second < b.second)))
  {
    var fs, gs := Fields(a), Fields(b);
    assert fs[5..][1..] == [] && gs[5..][1..] == [];
    assert ValuesLess(fs[5..], gs[5..]) <==> a.second < b.second;
    assert fs[4..][1..] == fs[5..] && gs[4..][1..] == gs[5..];
    assert ValuesLess(fs[4..], gs[4..]) <==>
      a.minute < b.minute || (a.minute == b.minute && ValuesLess(fs[5..], gs[5..]));
    assert fs[3..][1..] == fs[4..] && gs[3..][1..] == gs[4..];
  }

  /** All six fields compare as the tuple `Before` compares. */
  lemma FieldsLess(a: DateTime, b: DateTime)
    ensures ValuesLess(Fields(a), Fields(b)) <==> Before(a, b)
  {
    var fs, gs := Fields(a), Fields(b);
    ClockFieldsLess(a, b);
    assert fs[2..][1..] == fs[3..] && gs[2..][1..] == gs[3..];
    assert ValuesLess(fs[2..], gs[2..]) <==>
      a.day < b.day || (a.day == b.day && ValuesLess(fs[3..], gs[3..]));
    assert fs[1..][1..] == fs[2..] && gs[1..][1..] == gs[2..];
    assert ValuesLess(fs[1..], gs[1..]) <==>
      a.month < b.month || (a.month == b.month && ValuesLess(fs[2..], gs[2..]));
  }

  /** String `<` on two formatted stamps holds exactly when the first is
      earlier. */
  lemma FormatLess(a: DateTime, b: DateTime)
    ensures LexLess(Format(a), Format(b)) <==> Before(a, b)
  {
    assert SameShape(Fields(a), Fields(b));
    RenderOrder(Fields(a), Fields(b));
    FieldsLess(a, b);
  }

  /** Two stamps format alike only when they are equal. */
  lemma FormatInjective(a: DateTime, b: DateTime)
    requires Format(a) == Format(b)
    ensures a == b
  {
    var fs, gs := Fields(a), Fields(b);
    assert SameShape(fs, gs);
    RenderInjective(fs, gs);
    assert fs[0].value == gs[0].value && fs[1].value == gs[1].value && fs[2].value == gs[2].value;
    assert fs[3].value == gs[3].value && fs[4].value == gs[4].value && fs[5].value == gs[5].value;
  }

  /** The descending sort on the formatted string is the chronological
      order: every field is fixed-width and zero-padded for years 1..9999,
      so string `<` on two formatted stamps holds exactly when the first is
      earlier, and two stamps format alike only when they are equal. */
  lemma FormatOrder(a: DateTime, b: DateTime)
    ensures LexLess(Format(a), Format(b)) <==> Before(a, b)
    ensures Format(a) == Format(b) <==> a == b
  {
    FormatLess(a, b);
    if Format(a) == Format(b) {
      FormatInjective(a, b);
    }
  }
}
