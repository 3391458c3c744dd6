/** Colours, the atom colour and radius tables, and the SVG fill styles
    (src/cinemol/style.py). Everything here is a value: a `Color` is built
    once, `Diffuse` returns a new colour, the tables are read with a default,
    and `ToSvg` assembles strings. */
module Style {
  import opened Formatting

  // ===========================================================================
  // Color
  // ===========================================================================

  /** An 8-bit colour component. */
  type Channel = x: int | 0 <= x <= 255

  /** A colour in RGB format; the constructor `NewColor` clamps, so every
      stored component is a `Channel`. */
  datatype Color = Color(r: Channel, g: Channel, b: Channel)

  const Black: Color := Color(0, 0, 0)

  function Abs(x: int): nat {
    if x < 0 then -x else x
  }

  /** `max(0, min(255, x))`: values in range are kept, the others go to the
      nearer bound. */
  function Clamp(x: int): (c: Channel)
    ensures 0 <= x <= 255 ==> c == x
    ensures x < 0 ==> c == 0
    ensures x > 255 ==> c == 255
  {
    var low := if 255 < x then 255 else x;
    if 0 < low then low else 0
  }

  /** Clamping picks the channel value nearest to its argument. */
  lemma ClampIsNearest(x: int, v: Channel)
    ensures Abs(Clamp(x) - x) <= Abs(v - x)
  {
  }

  /** `Color(r, g, b)`: each component is clamped into 0..255; components
      already in range are stored unchanged, the others go to the nearer
      bound. */
  function NewColor(r: int, g: int, b: int): (c: Color)
    ensures 0 <= r <= 255 ==> c.r == r
    ensures 0 <= g <= 255 ==> c.g == g
    ensures 0 <= b <= 255 ==> c.b == b
    ensures r < 0 ==> c.r == 0
    ensures g < 0 ==> c.g == 0
    ensures b < 0 ==> c.b == 0
    ensures r > 255 ==> c.r == 255
    ensures g > 255 ==> c.g == 255
    ensures b > 255 ==> c.b == 255
  {
    Color(Clamp(r), Clamp(g), Clamp(b))
  }

  /** Building a colour from the components of a colour gives it back. */
  lemma NewColorIdempotent(c: Color)
    ensures NewColor(c.r, c.g, c.b) == c
  {
  }

  // ---------------------------------------------------------------------------
  // __str__
  // ---------------------------------------------------------------------------

  /** `str(color)` as written: "rgb(" and the three decimal components
      separated by commas. The closing parenthesis is missing, so the text
      always ends with a digit. */
  function ColorString(c: Color): (s: string)
    ensures |s| >= 9 && s[..4] == "rgb("
    ensures IsDigit(s[|s| - 1])
  {
    "rgb(" + Decimal(c.r) + "," + Decimal(c.g) + "," + Decimal(c.b)
  }

  /** Reads "rgb(r,g,b" back: three comma-separated decimal numbers in
      0..255 after "rgb(". */
  function ParseRgb(s: string): (c: Option<Color>)
  {
    if |s| < 4 || s[..4] != "rgb(" then None
    else
      var parts := Split(s[4..], ',');
      if |parts| != 3 then None
      else
        match (ParseDecimal(parts[0]), ParseDecimal(parts[1]), ParseDecimal(parts[2]))
        case (Some(r), Some(g), Some(b)) =>
          if r <= 255 && g <= 255 && b <= 255 then Some(Color(r, g, b)) else None
        case _ => None
  }

  /** The string of a colour determines the colour. */
  lemma ColorStringRoundTrip(c: Color)
    ensures ParseRgb(ColorString(c)) == Some(c)
  {
    var dr, dg, db := Decimal(c.r), Decimal(c.g), Decimal(c.b);
    var s := ColorString(c);
    DigitsHaveNo(dr, ',');
    DigitsHaveNo(dg, ',');
    DigitsHaveNo(db, ',');
    assert s[4..] == dr + [','] + (dg + [','] + db);
    SplitAtSeparator(dr, ',', dg + [','] + db);
    SplitAtSeparator(dg, ',', db);
    SplitWithoutSeparator(db, ',');
    DecimalRoundTrip(c.r);
    DecimalRoundTrip(c.g);
    DecimalRoundTrip(c.b);
  }

  /** The CSS functional notation `rgb(r,g,b)` that the string evidently
      means to produce. */
  function CssRgb(c: Color): (s: string)
    ensures |s| >= 1 && s[|s| - 1] == ')'
  {
    ColorString(c) + ")"
  }

  /** Reads a closed CSS `rgb(r,g,b)`. */
  function ParseCssRgb(s: string): (c: Option<Color>)
  {
    if |s| >= 1 && s[|s| - 1] == ')' then ParseRgb(s[..|s| - 1]) else None
  }

  lemma CssRgbRoundTrip(c: Color)
    ensures ParseCssRgb(CssRgb(c)) == Some(c)
  {
    assert CssRgb(c)[..|CssRgb(c)| - 1] == ColorString(c);
    ColorStringRoundTrip(c);
  }

  /** No colour's string as written is a closed CSS colour. */
  lemma ColorStringIsNotCss(c: Color)
    ensures ParseCssRgb(ColorString(c)) == None
  {
  }

  /** The concrete string for red. */
  lemma ColorStringOfRed()
    ensures ColorString(Color(255, 0, 0)) == "rgb(255,0,0"
    ensures CssRgb(Color(255, 0, 0)) == "rgb(255,0,0)"
  {
    assert Decimal(255) == "255" by {
      assert Decimal(25) == "25" by {
        assert Decimal(2) == "2";
      }
    }
    assert Decimal(0) == "0";
  }

  // ---------------------------------------------------------------------------
  // to_hex
  // ---------------------------------------------------------------------------

  /** `#rrggbb`: '#' followed by exactly six lower-case hexadecimal digits,
      two zero-padded digits per component. */
  function ToHex(c: Color): (h: string)
    ensures |h| == 7 && h[0] == '#'
    ensures forall i :: 1 <= i < 7 ==> IsLowerHexDigit(h[i])
  {
    "#" + Hex02(c.r) + Hex02(c.g) + Hex02(c.b)
  }

  /** Reads `#rrggbb` with lower-case digits. */
  function ParseHexColor(s: string): (c: Option<Color>)
  {
    if |s| != 7 || s[0] != '#' then None
    else
      match (ParseHex02(s[1..3]), ParseHex02(s[3..5]), ParseHex02(s[5..7]))
      case (Some(r), Some(g), Some(b)) => Some(Color(r, g, b))
      case _ => None
  }

  /** `to_hex` and `ParseHexColor` are inverse: the hex text recovers the
      colour, and the only text that parses to a colour is its hex text. */
  lemma HexRoundTrip(c: Color, s: string)
    ensures ParseHexColor(ToHex(c)) == Some(c)
    ensures ParseHexColor(s) == Some(c) ==> s == ToHex(c)
  {
    var h := ToHex(c);
    assert h[1..3] == Hex02(c.r) && h[3..5] == Hex02(c.g) && h[5..7] == Hex02(c.b);
    Hex02RoundTrip(c.r, []);
    Hex02RoundTrip(c.g, []);
    Hex02RoundTrip(c.b, []);
    if ParseHexColor(s) == Some(c) {
      Hex02RoundTrip(c.r, s[1..3]);
      Hex02RoundTrip(c.g, s[3..5]);
      Hex02RoundTrip(c.b, s[5..7]);
      assert s == [s[0]] + s[1..3] + s[3..5] + s[5..7];
    }
  }

  lemma ToHexInjective(c1: Color, c2: Color)
    ensures ToHex(c1) == ToHex(c2) <==> c1 == c2
  {
    HexRoundTrip(c1, []);
    HexRoundTrip(c2, []);
  }

  // ---------------------------------------------------------------------------
  // diffuse
  // ---------------------------------------------------------------------------

  /** Python's `int()` on a real: truncation toward zero, so the result is
      the integer nearest to `x` on the side of zero. */
  function Truncate(x: real): (t: int)
    ensures 0.0 <= x ==> 0 <= t && t as real <= x < t as real + 1.0
    ensures x < 0.0 ==> t <= 0 && x <= t as real < x + 1.0
  {
    if x >= 0.0 then x.Floor else -((-x).Floor)
  }

  /** `max(0, min(1, alpha))`. */
  function ClampUnit(alpha: real): (a: real)
    ensures 0.0 <= a <= 1.0
    ensures 0.0 <= alpha <= 1.0 ==> a == alpha
    ensures alpha > 1.0 ==> a == 1.0
    ensures alpha < 0.0 ==> a == 0.0
  {
    var low := if 1.0 < alpha then 1.0 else alpha;
    if 0.0 < low then low else 0.0
  }

  /** One component scaled by the clamped factor: the largest integer not
      above `v * a`, which lies between 0 and `v`. */
  function Scale(v: Channel, a: real): (s: Channel)
    requires 0.0 <= a <= 1.0
    ensures s as real <= v as real * a < s as real + 1.0
    ensures s <= v
    ensures a == 1.0 ==> s == v
    ensures a == 0.0 ==> s == 0
  {
    ProductFloorBounds(v as real, a);
    Clamp(Truncate(v as real * a))
  }

  /** A non-negative number times a factor in [0,1] lies between 0 and the
      number, and so does its floor. */
  lemma ProductFloorBounds(x: real, a: real)
    requires 0.0 <= x && 0.0 <= a <= 1.0
    ensures 0.0 <= x * a <= x
    ensures 0 <= (x * a).Floor <= x.Floor
  {
    assert x * (1.0 - a) >= 0.0;
  }

  /** `color.diffuse(alpha)`: alpha is clamped to [0,1] and every component
      becomes floor(component * alpha); so each result component lies between
      0 and the original, alpha >= 1 keeps the colour and alpha <= 0 gives
      black. */
  function Diffuse(c: Color, alpha: real): (d: Color)
    ensures d.r <= c.r && d.g <= c.g && d.b <= c.b
    ensures 0.0 <= alpha <= 1.0 ==>
      && d.r as real <= c.r as real * alpha < d.r as real + 1.0
      && d.g as real <= c.g as real * alpha < d.g as real + 1.0
      && d.b as real <= c.b as real * alpha < d.b as real + 1.0
    ensures alpha >= 1.0 ==> d == c
    ensures alpha <= 0.0 ==> d == Black
  {
    var a := ClampUnit(alpha);
    var scaled := Color(Scale(c.r, a), Scale(c.g, a), Scale(c.b, a));
    NewColorIdempotent(scaled);
    NewColor(scaled.r, scaled.g, scaled.b)
  }

  lemma ScaleMonotone(v: Channel, a1: real, a2: real)
    requires 0.0 <= a1 <= a2 <= 1.0
    ensures Scale(v, a1) <= Scale(v, a2)
  {
    assert v as real * (a2 - a1) >= 0.0;
    assert v as real * a1 <= v as real * a2;
  }

  /** A larger factor never gives a darker colour. */
  lemma DiffuseMonotone(c: Color, a1: real, a2: real)
    requires a1 <= a2
    ensures Diffuse(c, a1).r <= Diffuse(c, a2).r
    ensures Diffuse(c, a1).g <= Diffuse(c, a2).g
    ensures Diffuse(c, a1).b <= Diffuse(c, a2).b
  {
    var b1, b2 := ClampUnit(a1), ClampUnit(a2);
    assert b1 <= b2;
    ScaleMonotone(c.r, b1, b2);
    ScaleMonotone(c.g, b1, b2);
    ScaleMonotone(c.b, b1, b2);
  }

  /** The half shade used by the gradients halves every component, rounding
      down. */
  lemma DiffuseHalf(c: Color)
    ensures Diffuse(c, 0.5) == Color(c.r / 2, c.g / 2, c.b / 2)
  {
    HalfFloor(c.r);
    HalfFloor(c.g);
    HalfFloor(c.b);
  }

  lemma HalfFloor(v: Channel)
    ensures Scale(v, 0.5) == v / 2
  {
    var s := Scale(v, 0.5);
    var q := v / 2;
    assert v == 2 * q || v == 2 * q + 1;
    assert s as real <= v as real * 0.5 < s as real + 1.0;
    assert q as real <= v as real * 0.5 < q as real + 1.0;
  }

  // ===========================================================================
  // Atom colours: Corey-Pauling-Koltun convention
  // ===========================================================================

  /** The colour for symbols that have no entry. */
  const Pink: Color := Color(255, 192, 203)

  /** The class attributes of `CoreyPaulingKoltungAtomColor`: the colour of
      each listed symbol. No listed colour is the pink fallback. */
  function CpkEntry(sym: string): (r: Option<Color>)
    ensures r.Some? ==> r.value != Pink
  {
    match sym
    case "H"  => Some(Color(255, 255, 255))
    case "C"  => Some(Color( 48,  48,  48))
    case "N"  => Some(Color(  0,   0, 255))
    case "O"  => Some(Color(255,   0,   0))
    case "P"  => Some(Color(255, 165,   0))
    case "S"  => Some(Color(255, 255,   0))
    case "B"  => Some(Color(245, 245, 220))
    case "Br" => Some(Color(139,   0,   0))
    case "I"  => Some(Color(148,   0, 211))
    case "Ti" => Some(Color(128, 128, 128))
    case "Fe" => Some(Color(255, 140,   0))
    case "F"  => Some(Color(  0, 128,   0))
    case "Cl" => Some(Color(  0, 128,   0))
    case "He" => Some(Color(  0, 255, 255))
    case "Ne" => Some(Color(  0, 255, 255))
    case "Ar" => Some(Color(  0, 255, 255))
    case "Kr" => Some(Color(  0, 255, 255))
    case "Xe" => Some(Color(  0, 255, 255))
    case "Li" => Some(Color(238, 130, 238))
    case "Na" => Some(Color(238, 130, 238))
    case "K"  => Some(Color(238, 130, 238))
    case "Rb" => Some(Color(238, 130, 238))
    case "Cs" => Some(Color(238, 130, 238))
    case "Fr" => Some(Color(238, 130, 238))
    case "Be" => Some(Color(  0, 100,   0))
    case "Mg" => Some(Color(  0, 100,   0))
    case "Ca" => Some(Color(  0, 100,   0))
    case "Sr" => Some(Color(  0, 100,   0))
    case "Ba" => Some(Color(  0, 100,   0))
    case "Ra" => Some(Color(  0, 100,   0))
    case _ => None
  }

  /** `get_color`: the table colour of a listed symbol, pink otherwise; since
      no listed colour is pink, the result is pink exactly for unlisted
      symbols. */
  function GetColor(sym: string): (c: Color)
    ensures CpkEntry(sym).Some? ==> c == CpkEntry(sym).value
    ensures c == Pink <==> CpkEntry(sym).None?
  {
    match CpkEntry(sym)
    case Some(listed) => listed
    case None => Pink
  }

  /** Lookups are case-sensitive, and carbon is dark grey. */
  lemma GetColorExamples()
    ensures GetColor("C") == Color(48, 48, 48)
    ensures GetColor("c") == Pink
    ensures GetColor("Al") == Pink
  {
  }

  // ===========================================================================
  // Atom radii: PubChem van der Waals radii in picometres
  // ===========================================================================

  /** The class attributes of `PubChemAtomRadius`: van der Waals radii in
      picometres. */
  function PubChemRadius(sym: string): (r: Option<real>)
    ensures r.Some? ==> 120.0 <= r.value <= 348.0
  {
    match sym
    case "H"  => Some(120.0)
    case "He" => Some(140.0)
    case "Li" => Some(182.0)
    case "Be" => Some(153.0)
    case "B"  => Some(192.0)
    case "C"  => Some(170.0)
    case "N"  => Some(155.0)
    case "O"  => Some(152.0)
    case "F"  => Some(135.0)
    case "Ne" => Some(154.0)
    case "Na" => Some(227.0)
    case "Mg" => Some(173.0)
    case "Al" => Some(184.0)
    case "Si" => Some(210.0)
    case "P"  => Some(180.0)
    case "S"  => Some(180.0)
    case "Cl" => Some(175.0)
    case "Ar" => Some(188.0)
    case "K"  => Some(275.0)
    case "Ca" => Some(231.0)
    case "Sc" => Some(211.0)
    case "Ti" => Some(187.0)
    case "V"  => Some(179.0)
    case "Cr" => Some(189.0)
    case "Mn" => Some(197.0)
    case "Fe" => Some(194.0)
    case "Co" => Some(192.0)
    case "Ni" => Some(163.0)
    case "Cu" => Some(140.0)
    case "Zn" => Some(139.0)
    case "Ga" => Some(187.0)
    case "Ge" => Some(211.0)
    case "As" => Some(185.0)
    case "Se" => Some(190.0)
    case "Br" => Some(183.0)
    case "Kr" => Some(202.0)
    case "Rb" => Some(303.0)
    case "Sr" => Some(249.0)
    case "Y"  => Some(219.0)
    case "Zr" => Some(186.0)
    case "Nb" => Some(207.0)
    case "Mo" => Some(209.0)
    case "Tc" => Some(209.0)
    case "Ru" => Some(207.0)
    case "Rh" => Some(195.0)
    case "Pd" => Some(202.0)
    case "Ag" => Some(172.0)
    case "Cd" => Some(158.0)
    case "In" => Some(193.0)
    case "Sn" => Some(217.0)
    case "Sb" => Some(206.0)
    case "Te" => Some(206.0)
    case "I"  => Some(198.0)
    case "Xe" => Some(216.0)
    case "Cs" => Some(343.0)
    case "Ba" => Some(268.0)
    case "Lu" => Some(221.0)
    case "Hf" => Some(212.0)
    case "Ta" => Some(217.0)
    case "W"  => Some(210.0)
    case "Re" => Some(217.0)
    case "Os" => Some(216.0)
    case "Ir" => Some(202.0)
    case "Pt" => Some(209.0)
    case "Au" => Some(166.0)
    case "Hg" => Some(209.0)
    case "Tl" => Some(196.0)
    case "Pb" => Some(202.0)
    case "Bi" => Some(207.0)
    case "Po" => Some(197.0)
    case "At" => Some(202.0)
    case "Rn" => Some(220.0)
    case "Fr" => Some(348.0)
    case "Ra" => Some(283.0)
    case _ => None
  }

  /** The radius used for symbols that have no entry, in picometres. */
  const DefaultRadius: real := 170.0

  /** `to_angstrom`: the table radius (or 170 pm) divided by 100; every
      result lies between hydrogen's 1.2 and francium's 3.48 angstrom. */
  function ToAngstrom(sym: string): (a: real)
    ensures PubChemRadius(sym).Some? ==> a * 100.0 == PubChemRadius(sym).value
    ensures PubChemRadius(sym).None? ==> a == 1.7
    ensures 1.2 <= a <= 3.48
  {
    match PubChemRadius(sym)
    case Some(pm) => pm / 100.0
    case None => DefaultRadius / 100.0
  }

  /** Carbon's radius equals the fallback radius. */
  lemma ToAngstromExamples()
    ensures ToAngstrom("H") == 1.2
    ensures ToAngstrom("C") == ToAngstrom("Xx") == 1.7
  {
  }

  // ===========================================================================
  // Fill styles
  // ===========================================================================

  /** A Python number passed as a radius: the constructors test the type. */
  datatype Number = IntNum(i: int) | FloatNum(f: real)

  function Value(n: Number): real {
    match n
    case IntNum(i) => i as real
    case FloatNum(f) => f
  }

  /** The fill style classes. `BaseFillStyle` is an instance of the base class
      `FillStyle` itself, which is not abstract. Gradient points are the
      two-element arrays of the source. */
  datatype FillStyle =
    | BaseFillStyle
    | Solid
    | RadialGradient(center: (real, real), radius: Number)
    | LinearGradient(start: (real, real), end: (real, real), radius: Number)

  datatype Error = TypeError | ValueError

  datatype Result<T> = Ok(value: T) | Err(error: Error)

  /** `RadialGradient(center, radius)` as written: only a float radius <= 0
      raises ValueError; an integer radius passes whatever its value. */
  function NewRadialGradient(center: (real, real), radius: Number): (r: Result<FillStyle>)
    ensures r.Err? <==> radius.FloatNum? && radius.f <= 0.0
    ensures r.Err? ==> r.error == ValueError
    ensures r.Ok? ==> r.value.RadialGradient? && r.value.center == center && r.value.radius == radius
  {
    if radius.FloatNum? && radius.f <= 0.0 then Err(ValueError) else Ok(RadialGradient(center, radius))
  }

  /** `LinearGradient(start, end, radius)` as written, with the same check. */
  function NewLinearGradient(start: (real, real), end: (real, real), radius: Number): (r: Result<FillStyle>)
    ensures r.Err? <==> radius.FloatNum? && radius.f <= 0.0
    ensures r.Err? ==> r.error == ValueError
    ensures r.Ok? ==>
      && r.value.LinearGradient?
      && r.value.start == start && r.value.end == end && r.value.radius == radius
  {
    if radius.FloatNum? && radius.f <= 0.0 then Err(ValueError) else Ok(LinearGradient(start, end, radius))
  }

  /** A gradient's radius is positive. */
  predicate WellFormed(style: FillStyle) {
    (style.RadialGradient? || style.LinearGradient?) ==> Value(style.radius) > 0.0
  }

  /** The as-written check lets an integer radius of zero (or below) through. */
  lemma GradientAcceptsIntegerZeroRadius()
    ensures NewRadialGradient((0.0, 0.0), IntNum(0)).Ok?
    ensures !WellFormed(NewRadialGradient((0.0, 0.0), IntNum(0)).value)
    ensures NewLinearGradient((0.0, 0.0), (1.0, 1.0), IntNum(-1)).Ok?
    ensures !WellFormed(NewLinearGradient((0.0, 0.0), (1.0, 1.0), IntNum(-1)).value)
  {
  }

  /** The evidently intended check: any radius that is not positive raises
      ValueError, so every gradient built is well formed. */
  function NewRadialGradientChecked(center: (real, real), radius: Number): (r: Result<FillStyle>)
    ensures r.Err? <==> Value(radius) <= 0.0
    ensures r.Ok? ==> r.value == RadialGradient(center, radius) && WellFormed(r.value)
  {
    if Value(radius) <= 0.0 then Err(ValueError) else Ok(RadialGradient(center, radius))
  }

  function NewLinearGradientChecked(start: (real, real), end: (real, real), radius: Number): (r: Result<FillStyle>)
    ensures r.Err? <==> Value(radius) <= 0.0
    ensures r.Ok? ==> r.value == LinearGradient(start, end, radius) && WellFormed(r.value)
  {
    if Value(radius) <= 0.0 then Err(ValueError) else Ok(LinearGradient(start, end, radius))
  }

  /** The corrected checks agree with the written ones on float radii. */
  lemma CheckedAgreesOnFloats(center: (real, real), end: (real, real), f: real)
    ensures NewRadialGradientChecked(center, FloatNum(f)) == NewRadialGradient(center, FloatNum(f))
    ensures NewLinearGradientChecked(center, end, FloatNum(f)) == NewLinearGradient(center, end, FloatNum(f))
  {
  }

  // ---------------------------------------------------------------------------
  // Fill.to_svg
  // ---------------------------------------------------------------------------

  /** The `Fill` dataclass. */
  datatype Fill = Fill(reference: string, fillColor: Color, fillStyle: FillStyle)

  /** The two gradient stops: the colour at offset 0 and its half shade at
      offset 1. */
  function Stops(c: Color): string {
    "<stop offset=\"0.00\" stop-color=\"" + ToHex(c) + "\"/>"
    + "<stop offset=\"1.00\" stop-color=\"" + ToHex(Diffuse(c, 0.5)) + "\"/>"
  }

  /** The element both gradients write: the opening tag with its id, the
      remaining attributes, the stops and the closing tag. */
  function GradientDefinition(tag: string, ref: string, attributes: string, c: Color): (d: string)
    ensures var open := "<" + tag + " id=\"" + ref + "\"";
      var close := Stops(c) + "</" + tag + ">";
      && |open| + |close| <= |d|
      && d[..|open|] == open
      && d[|d| - |close|..] == close
  {
    var open := "<" + tag + " id=\"" + ref + "\"";
    var close := Stops(c) + "</" + tag + ">";
    var d := open + (attributes + ">") + close;
    assert d[..|open|] == open;
    assert d[|d| - |close|..] == close;
    d
  }

  /** The attributes of `<radialGradient>`; `fmt` is the `.3f` rendering of a
      number. */
  function RadialAttributes(center: (real, real), radius: Number, fmt: real -> string): string {
    var cx, cy := fmt(center.0), fmt(center.1);
    " cx=\"" + cx + "\" cy=\"" + cy + "\""
    + " r=\"" + fmt(Value(radius)) + "\" fx=\"" + cx + "\" fy=\"" + cy + "\""
    + " gradientTransform=\"matrix(1,0,0,1,0,0)\""
    + " gradientUnits=\"userSpaceOnUse\""
  }

  /** The attributes of `<linearGradient>`; the radius is not written. */
  function LinearAttributes(start: (real, real), end: (real, real), fmt: real -> string): string {
    " x1=\"" + fmt(start.0) + "\" y1=\"" + fmt(start.1) + "\""
    + " x2=\"" + fmt(end.0) + "\" y2=\"" + fmt(end.1) + "\""
    + " gradientUnits=\"userSpaceOnUse\""
    + " spreadMethod=\"reflect\""
  }

  /** `fill.to_svg()`: the CSS style rule and the optional definition.
      A solid fill gives a rule with the hex colour and a black stroke and no
      definition; a gradient fill gives a rule that points at `#reference` and
      a definition with that id whose stops are the colour and its half
      shade; the bare base class raises TypeError. */
  function ToSvg(fill: Fill, fmt: real -> string): (r: Result<(string, Option<string>)>)
    ensures r.Err? <==> fill.fillStyle.BaseFillStyle?
    ensures r.Err? ==> r.error == TypeError
    ensures r.Ok? ==> (r.value.1.None? <==> fill.fillStyle.Solid?)
    ensures fill.fillStyle.Solid? ==>
      r.value.0 == "." + fill.reference + "{fill:" + ToHex(fill.fillColor) + ";stroke:black;stroke-width:0.05px;}"
    ensures fill.fillStyle.RadialGradient? || fill.fillStyle.LinearGradient? ==>
      && r.value.0 == "." + fill.reference + "{fill:url(#" + fill.reference + ");}"
      && var tag := if fill.fillStyle.RadialGradient? then "radialGradient" else "linearGradient";
         var open := "<" + tag + " id=\"" + fill.reference + "\"";
         var close := Stops(fill.fillColor) + "</" + tag + ">";
         && |open| + |close| <= |r.value.1.value|
         && r.value.1.value[..|open|] == open
         && r.value.1.value[|r.value.1.value| - |close|..] == close
  {
    var ref, c := fill.reference, fill.fillColor;
    match fill.fillStyle
    case BaseFillStyle => Err(TypeError)
    case Solid =>
      Ok(("." + ref + "{fill:" + ToHex(c) + ";stroke:black;stroke-width:0.05px;}", None))
    case RadialGradient(center, radius) =>
      Ok(("." + ref + "{fill:url(#" + ref + ");}",
          Some(GradientDefinition("radialGradient", ref, RadialAttributes(center, radius, fmt), c))))
    case LinearGradient(start, end, _) =>
      Ok(("." + ref + "{fill:url(#" + ref + ");}",
          Some(GradientDefinition("linearGradient", ref, LinearAttributes(start, end, fmt), c))))
  }

  /** The colour of a solid fill can be read back from its style rule. */
  lemma SolidStyleRecoversColor(ref: string, c: Color, fmt: real -> string)
    ensures var style := ToSvg(Fill(ref, c, Solid), fmt).value.0;
      |style| >= |ref| + 14 && ParseHexColor(style[|ref| + 7..|ref| + 14]) == Some(c)
  {
    var style := ToSvg(Fill(ref, c, Solid), fmt).value.0;
    assert style[|ref| + 7..|ref| + 14] == ToHex(c);
    HexRoundTrip(c, []);
  }

  /** The two stop colours of a gradient are the colour and each component
      halved; they differ unless the colour is black. */
  lemma GradientStopColors(c: Color)
    ensures Diffuse(c, 0.5) == Color(c.r / 2, c.g / 2, c.b / 2)
    ensures ToHex(c) == ToHex(Diffuse(c, 0.5)) <==> c == Black
  {
    DiffuseHalf(c);
    ToHexInjective(c, Diffuse(c, 0.5));
  }
}
