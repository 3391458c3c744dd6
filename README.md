# cinemol style and exact geometry, in Dafny

This project models two parts of cinemol, a renderer that draws molecules as SVG.

**Colours and fill styles** (`src/cinemol/style.py`, module `Style`, with `Formatting` for the Python
string formatting it uses):

- An RGB `Color` clamps each component into 0..255.
- A colour prints as `rgb(r,g,b` and as `#rrggbb`.
- `diffuse` darkens a colour by a factor.
- The Corey-Pauling-Koltun colour table falls back to pink for unknown symbols.
- The PubChem van der Waals radius table falls back to 170 pm and converts picometres to ångström.
- The fill styles are `Solid`, `RadialGradient` and `LinearGradient`. `Fill.to_svg` turns a fill into a CSS
  style rule and an optional SVG gradient definition.

**Exact vector algebra** (`src/cinemol/geometry.py`, module `Geometry`): the operations on `Vector3D`,
`Point2D` and `Point3D`, the `sign` helper, the `same_side_of_plane` test and `get_points_on_line_3d`.
Coordinates are Dafny `real`s, so each identity is proved exactly. `get_points_on_line_3d` grows a list in a
loop in the source. It is a method with a `while` loop, proved against the specification function `LinePoints`.

Everything else in these files is a value computation and is modelled with datatypes and functions. Python
exceptions become `Result` values (`Err(TypeError)`, `Err(ValueError)`). A missing table entry becomes `None`.

Each rendering has a parser, so that round trips can be stated:

- `ParseHexColor` reads `#rrggbb`.
- `ParseRgb` reads `rgb(r,g,b`.
- `ParseCssRgb` reads `rgb(r,g,b)`.

The `.3f` formatting of gradient coordinates is a parameter `fmt: real -> string` of `ToSvg`.

Where the docstring and the code disagree, the model follows the code:

- `create_vector` computes `self - other`. That is the vector from the other point to this one, although the
  docstring says "from this point to another".
- `__str__` omits the closing parenthesis.

## Model

| member | source | states |
|---|---|---|
| `Style.Clamp` | src/cinemol/style.py:31-33 | the result is always in 0..255 (its type); a value already in 0..255 is kept; a negative value gives 0 and a value above 255 gives 255 |
| `Style.ClampIsNearest` | src/cinemol/style.py:31-33 | the clamped value is at least as close to the input as every other value in 0..255 |
| `Style.NewColor` | src/cinemol/style.py:23-33 | each stored component is the input when that is in range; otherwise it is the nearer bound, 0 or 255 |
| `Style.NewColorIdempotent` | src/cinemol/style.py:31-33 | building a colour from the components of a colour gives the same colour back |
| `Style.ColorString` | src/cinemol/style.py:35-42 | `str(color)` starts with `rgb(` and ends with a digit, so it never has the closing parenthesis |
| `Style.ColorStringRoundTrip` | src/cinemol/style.py:42 | parsing `rgb(r,g,b` back recovers the colour |
| `Style.ColorStringIsNotCss` | src/cinemol/style.py:42 | for every colour, the written string is rejected by a parser of closed CSS `rgb(r,g,b)` |
| `Style.ColorStringOfRed` | src/cinemol/style.py:42 | red prints as `rgb(255,0,0`, where `rgb(255,0,0)` was intended |
| `Style.CssRgb` | src/cinemol/style.py:42 | the corrected string ends with `)` |
| `Style.CssRgbRoundTrip` | src/cinemol/style.py:42 | the corrected string parses back to the colour |
| `Style.ToHex` | src/cinemol/style.py:44-51 | `to_hex` is `#` followed by exactly six lower-case hexadecimal digits |
| `Style.HexRoundTrip` | src/cinemol/style.py:51 | `to_hex` and the `#rrggbb` parser are inverse, in both directions |
| `Style.ToHexInjective` | src/cinemol/style.py:51 | two colours have the same hex text exactly when they are equal |
| `Formatting.Hex02` | src/cinemol/style.py:51 | `02x` of 0..255 gives two lower-case hex digits, high nibble first, whose value is the number |
| `Formatting.Hex02RoundTrip` | src/cinemol/style.py:51 | `02x` is a bijection between 0..255 and two-digit lower-case hex strings |
| `Formatting.Decimal` | src/cinemol/style.py:42 | `str(n)` gives a non-empty string of digits with no leading zero, except for 0 itself |
| `Formatting.DecimalRoundTrip` | src/cinemol/style.py:42 | reading `str(n)` back as an integer gives `n` |
| `Style.Truncate` | src/cinemol/style.py:66-68 | Python's `int()` truncates toward zero: for x >= 0 the result is the largest integer not above x; for x < 0 it is the smallest integer not below x |
| `Style.ClampUnit` | src/cinemol/style.py:64 | the clamped factor equals alpha when alpha is in [0,1], is 1 when alpha > 1, and is 0 when alpha < 0 |
| `Style.Scale` | src/cinemol/style.py:65-69 | a scaled component is floor(v*a); it lies between 0 and v; it is v for a = 1 and 0 for a = 0 |
| `Style.Diffuse` | src/cinemol/style.py:53-71 | each component is at most the original; for alpha in [0,1] each component is floor(component*alpha); alpha >= 1 keeps the colour; alpha <= 0 gives black |
| `Style.DiffuseMonotone` | src/cinemol/style.py:64-69 | a larger alpha never gives a darker component |
| `Style.DiffuseHalf` | src/cinemol/style.py:64-69 | `diffuse(0.5)` halves each component, rounding down |
| `Style.CpkEntry` | src/cinemol/style.py:98-127 | the 30 listed symbols and their colours; no listed colour equals the pink fallback |
| `Style.GetColor` | src/cinemol/style.py:129-138 | a listed symbol gets its table colour; the result is pink exactly for unlisted symbols, because no table colour is pink |
| `Style.GetColorExamples` | src/cinemol/style.py:98-138 | carbon is (48,48,48); the lookup is case-sensitive (`c` is pink); `Al` has no colour and is pink |
| `Style.PubChemRadius` | src/cinemol/style.py:165-177 | the 74 listed radii in picometres; every listed radius lies between 120 (hydrogen) and 348 (francium) |
| `Style.ToAngstrom` | src/cinemol/style.py:165-188 | a listed symbol gives its picometre value divided by 100; an unlisted one gives 1.7; every result lies in [1.2, 3.48] |
| `Style.ToAngstromExamples` | src/cinemol/style.py:165-188 | hydrogen is 1.2 Å; carbon and an unknown symbol both give 1.7 Å |
| `Style.NewRadialGradient` | src/cinemol/style.py:220-232 | as written, ValueError is raised exactly for a float radius <= 0; otherwise the center and radius are stored |
| `Style.NewLinearGradient` | src/cinemol/style.py:238-255 | as written, ValueError is raised exactly for a float radius <= 0; otherwise start, end and radius are stored |
| `Style.GradientAcceptsIntegerZeroRadius` | src/cinemol/style.py:228-229 | an integer radius of 0 (radial) or -1 (linear) is accepted and yields a gradient with a non-positive radius |
| `Style.NewRadialGradientChecked` | src/cinemol/style.py:228-229 | corrected: ValueError exactly for a non-positive radius of either number type; every gradient built has a positive radius |
| `Style.NewLinearGradientChecked` | src/cinemol/style.py:250-251 | corrected: ValueError exactly for a non-positive radius of either number type; every gradient built has a positive radius |
| `Style.CheckedAgreesOnFloats` | src/cinemol/style.py:228-229 | the corrected and the written checks agree on every float radius |
| `Style.Stops` | src/cinemol/style.py:297-298 | no contract of its own; `GradientStopColors` states that the two stops are the colour and each component halved |
| `Style.RadialAttributes` | src/cinemol/style.py:291-295 | no contract of its own; the attributes between the id and `>` of `<radialGradient>`, with `fmt` for `.3f`; `ToSvg` states the element around them |
| `Style.LinearAttributes` | src/cinemol/style.py:314-317 | no contract of its own; the attributes between the id and `>` of `<linearGradient>`, with `fmt` for `.3f`; the radius is not written |
| `Style.GradientDefinition` | src/cinemol/style.py:289-299 | a gradient definition starts with `<tag id="reference"` and ends with the two stops and `</tag>` |
| `Style.ToSvg` | src/cinemol/style.py:266-328 | the base class gives TypeError; the definition is absent exactly for `Solid`; Solid gives `.ref{fill:#rrggbb;stroke:black;stroke-width:0.05px;}`; a gradient gives `.ref{fill:url(#ref);}` and a definition whose id is `ref` and whose stops are the colour's hex and its `diffuse(0.5)` hex |
| `Style.SolidStyleRecoversColor` | src/cinemol/style.py:277-281 | the colour of a solid fill can be parsed back out of its style rule |
| `Style.GradientStopColors` | src/cinemol/style.py:297-298 | the second stop is each component halved; the two stop colours differ unless the colour is black |
| `Geometry.Dot` | src/cinemol/geometry.py:56-64 | no contract of its own; see `DotSymmetric`, `DotLinear`, `CrossLength` and `TripleProduct` |
| `Geometry.Cross` | src/cinemol/geometry.py:66-78 | the cross product is orthogonal to both factors: `dot(a, a×b) = dot(b, a×b) = 0` |
| `Geometry.DotSymmetric` | src/cinemol/geometry.py:56-64 | `a.dot(b) = b.dot(a)` |
| `Geometry.DotLinear` | src/cinemol/geometry.py:64-98 | dot is linear in its first argument over `subtract` and `multiply` |
| `Geometry.CrossAnticommutative` | src/cinemol/geometry.py:74-78 | `a×b = (b×a).multiply(-1)` |
| `Geometry.CrossParallelZero` | src/cinemol/geometry.py:74-78 | `a×a` and `a×(s·a)` are the zero vector |
| `Geometry.CrossLength` | src/cinemol/geometry.py:64-78 | Lagrange's identity: `(a×b)·(a×b) = (a·a)(b·b) - (a·b)²` |
| `Geometry.TripleProduct` | src/cinemol/geometry.py:64-78 | `a·(b×c) = (a×b)·c` |
| `Geometry.Subtract` | src/cinemol/geometry.py:80-88 | no contract of its own; see `SubtractSelf`, `SubtractAntisymmetric` and `DotLinear` |
| `Geometry.Multiply` | src/cinemol/geometry.py:90-98 | no contract of its own; see `MultiplyUnitAndZero`, `SubtractAntisymmetric` and `DotLinear` |
| `Geometry.SubtractSelf` | src/cinemol/geometry.py:88 | `v.subtract(v)` is the zero vector |
| `Geometry.SubtractAntisymmetric` | src/cinemol/geometry.py:88-98 | `a.subtract(b) = b.subtract(a).multiply(-1)` |
| `Geometry.MultiplyUnitAndZero` | src/cinemol/geometry.py:98 | `multiply(1)` is the identity; `multiply(0)` gives the zero vector |
| `Geometry.SubtractPoint` | src/cinemol/geometry.py:112-120 | no contract of its own; see `SubtractPointSelf` and `Cross2DSubtract` |
| `Geometry.Cross2D` | src/cinemol/geometry.py:122-130 | no contract of its own; see `Cross2DAntisymmetric` and `Cross2DSubtract` |
| `Geometry.SubtractPointSelf` | src/cinemol/geometry.py:120 | `p.subtract_point(p)` is the origin |
| `Geometry.Cross2DAntisymmetric` | src/cinemol/geometry.py:130 | `p.cross(q) = -q.cross(p)`; `p.cross(p) = 0` |
| `Geometry.Cross2DSubtract` | src/cinemol/geometry.py:112-130 | the 2-D cross is linear in its first argument over `subtract_point`; `(p-q).cross(q) = p.cross(q)` |
| `Geometry.CreateVector` | src/cinemol/geometry.py:146-154 | no contract of its own; it computes `self - other`; see `CreateVectorAntisymmetric` and `CreateVectorTranslation` |
| `Geometry.Midpoint` | src/cinemol/geometry.py:166-174 | no contract of its own; see `MidpointProperties` and `LinePointsMidpoint` |
| `Geometry.CreateVectorAntisymmetric` | src/cinemol/geometry.py:146-154 | `p.create_vector(q) = q.create_vector(p).multiply(-1)`; `p.create_vector(p)` is zero |
| `Geometry.CreateVectorTranslation` | src/cinemol/geometry.py:146-154 | `(p - o).subtract(q - o) = p.create_vector(q)` |
| `Geometry.MidpointProperties` | src/cinemol/geometry.py:166-174 | the midpoint is symmetric; `p.midpoint(p) = p`; it lies halfway: `m - p = q - m` |
| `Geometry.Sign` | src/cinemol/geometry.py:180-193 | `sign(x)` is in {-1, 0, 1}; it is 0 exactly for x = 0 and 1 exactly for x > 0 |
| `Geometry.SignNegate` | src/cinemol/geometry.py:188-193 | `sign(-x) = -sign(x)` |
| `Geometry.SignProduct` | src/cinemol/geometry.py:188-193 | `sign(x*y) = sign(x)*sign(y)` |
| `Geometry.Side` | src/cinemol/geometry.py:291-292 | no contract of its own; the offset `p.create_vector(plane.center).dot(plane.normal)` whose sign is compared; see `CenterIsOnPlane` and `ScaledSide` |
| `Geometry.SameSideOfPlane` | src/cinemol/geometry.py:281-293 | true exactly when both signed offsets from the plane are positive, both negative, or both zero |
| `Geometry.SameSideIsEquivalence` | src/cinemol/geometry.py:291-293 | the test is reflexive, symmetric in p1/p2, and transitive |
| `Geometry.SameSideScaledNormal` | src/cinemol/geometry.py:291-293 | scaling the normal by any non-zero factor does not change the result |
| `Geometry.SameSideNegatedNormal` | src/cinemol/geometry.py:291-293 | negating the plane normal does not change the result |
| `Geometry.CenterIsOnPlane` | src/cinemol/geometry.py:291-293 | the plane's own center is on the same side as `p` exactly when `p` lies on the plane |
| `Geometry.PointAt` | src/cinemol/geometry.py:334-338 | no contract of its own; see `PointAtEnds`, `PointAtInjective` and `LinePointsOnSegment` |
| `Geometry.LinePoints` | src/cinemol/geometry.py:331-341 | the list has max(n, 0) points; `LinePointsShape`, `LinePointsOnSegment` and `LinePointsMidpoint` state what they are |
| `Geometry.GetPointsOnLine3D` | src/cinemol/geometry.py:319-341 | returns exactly max(n, 0) points, and they are `LinePoints(line, n)`: point k is `start + (end - start) * (k/n)` |
| `Geometry.ParameterRange` | src/cinemol/geometry.py:332-333 | every parameter k/n lies in [0, 1), and the first is 0 |
| `Geometry.PointAtEnds` | src/cinemol/geometry.py:334-338 | parameter 0 gives the start and parameter 1 gives the end |
| `Geometry.LinePointsOnSegment` | src/cinemol/geometry.py:328-341 | each point's offset from the start is the line's direction multiplied by its parameter |
| `Geometry.PointAtInjective` | src/cinemol/geometry.py:334-338 | on a line of non-zero length, equal points come from equal parameters |
| `Geometry.LinePointsShape` | src/cinemol/geometry.py:319-341 | point 0 is the start; on a line of non-zero length the points are pairwise distinct and the end is never emitted |
| `Geometry.LinePointsMidpoint` | src/cinemol/geometry.py:331-341 | for an even number of points, the middle one is `start.midpoint(end)` |

## Findings

| source | as written | input that shows it | evidently intended | confidence | as-written member | corrected member |
|---|---|---|---|---|---|---|
| src/cinemol/style.py:42 | `__str__` returns `rgb(r,g,b` with no closing parenthesis | `Color(255, 0, 0)` gives `rgb(255,0,0` | the CSS colour `rgb(255,0,0)` | high; not executed | `Style.ColorString` | `Style.CssRgb` |
| src/cinemol/style.py:228-229 | `RadialGradient` rejects a non-positive radius only when it is a `float` | `RadialGradient(center, 0)` with the integer 0 is accepted | every radius <= 0 is rejected, as the error message says | medium; not executed | `Style.NewRadialGradient` | `Style.NewRadialGradientChecked` |
| src/cinemol/style.py:250-251 | `LinearGradient` rejects a non-positive radius only when it is a `float` | `LinearGradient(start, end, -1)` is accepted | every radius <= 0 is rejected | medium; not executed | `Style.NewLinearGradient` | `Style.NewLinearGradientChecked` |

## Left out

- Floating point: coordinates, radii and factors are exact reals. Rounding, NaN and infinities are not modelled. For example, `max(0, min(1, nan))` is 1 in Python.
- `Style.ToAngstrom`: returns exact quotients such as 1.2. The float `120.0 / 100` is only the nearest double to that value.
- `Style.GetColor`: the `getattr` lookup also finds non-colour attributes such as `get_color` or `__doc__`. The model reads only the listed symbols. The same holds for `Style.ToAngstrom`.
- `Style.ToSvg`: the `.3f` text of gradient coordinates and radii is the parameter `fmt`. Float-to-text formatting is not modelled.
- `Color`, `Vector3D`, `Point2D` and `Point3D` define no `__eq__`, so two Python objects with the same components compare unequal, and `line.end in points` tests identity. The model compares them by value. The lemmas that state equalities use that value equality, among them `ToHexInjective`, `GetColorExamples`, `DiffuseHalf`, `CrossAnticommutative`, `SubtractSelf`, `MidpointProperties` and `LinePointsShape`.
- The `isinstance` TypeError checks on the colour components, on `alpha`, and on the fill style's class are left out. Dafny's types enforce them. The base `FillStyle` class itself is modelled and gives TypeError.
- The `.shape` checks on the gradient points are left out. The points are pairs of reals.
- The abstract classes `AtomColoringScheme` and `AtomRadiusScheme` are left out. So is the unused enum `FillStyleType`. They declare interfaces only.
- `length`, `normalize`, `calculate_distance`, `distance_to_line` and `point_is_inside_sphere` are left out. They need real square roots, and `normalize` divides by zero on the zero vector.
- `create_random` and `gram_schmidt` are left out, because they draw from `random.random()`.
- `get_points_on_circumference_circle_3d`, `get_points_on_surface_circle_3d` and `get_points_on_surface_sphere` are left out. They sample with floating-point `sin` and `cos`.
- `get_points_on_surface_cap`, `get_points_on_surface_cylinder` and `point_is_inside_cylinder` are left out, because they cannot run as written:
  - a stray `self` parameter shifts the arguments of the six-argument calls and leaves `resolution` missing;
  - `distance_to_line` is called with its arguments swapped.
- The datatypes used only by the left-out functions are not modelled: `Circle3D`, `Sphere`, `Cylinder` and `CylinderCapType`.
