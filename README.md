# A verified model of a small Whitted ray tracer

This project models the core of a C++ Whitted-style ray tracer in Dafny. The
ray tracer reads a scene file, casts one ray per pixel, and fills a frame
buffer that is uploaded as an RGBA texture.

These parts are modelled:

- **The scene-file parser** (`parser.cpp`): `attributes.dfy`, `tokens.dfy`,
  `builders.dfy`, `parser.dfy`. It covers
  - the three attribute regexes, written as character scans;
  - attribute names and the numeric, string and vector values;
  - the whitespace tokeniser and the condensing of tokens into attributes;
  - the six object builders;
  - the file's line loop and the material-name resolution.
- **Scene records** (`scenedata.h`): `scene.dfy`, as immutable datatypes.
- **`Color` and `Frame`** (`renderer_types.h`, `renderer_types.cpp`):
  `color.dfy`. It covers saturating addition, scaling, the `_c` hex literal,
  and the frame buffer as a class over an array.
- **`Renderer::getTextureData`** (`renderer.cpp`): `texture.dfy`.
- **The ray tracer** (`raytracer.cpp`): `hits.dfy`, `raytracer.dfy`. It covers
  - the two hit tests;
  - the shadow query;
  - the nearest-hit scans, the light loop and the reflection recursion of
    `rayCast`;
  - the pixel loop of `render`.
- **`Vect`** (`vect.h`, `vect.cpp`): `vect.dfy`.
- **`Matrix3D`** (`matrix.cpp`): `matrix.dfy`, a class over a 9-entry array.

Shared pieces:
- `wrappers.dfy` holds `Option` and `Result`.
- `realmath.dfy` holds the numeric library (`sqrt`, `pow`, `sin`, `cos` and
  float division). It is a parameter record with the few facts the proofs use.
- `floats.dfy` holds the IEEE 754 division and comparisons with infinities
  and NaN, for the hit tests as written when a divisor is zero.

Code that changes state in the source is modelled as imperative Dafny: loops
with invariants, and classes whose methods modify fields or arrays. Each such
method is proved equal to a pure function, and the properties are proved as
lemmas about those functions. A thrown error becomes an `Err` value.
Arithmetic is over `real`, except that the hit tests are also stated over
floats with NaN and infinities, to show what a zero divisor does.

## Model

| member | source | states |
|---|---|---|
| Attributes.StartsWithSigilIff | src/configfile/parser.cpp:14-27 | The character scan of `startsNumericAttribute`, `startsVectorAttribute` and `startsStringAttribute` accepts a token exactly when it is the sigil (none, `->` or `$`), then an identifier, then `:`, then a rest with no line terminator. |
| Attributes.AttributeClassesDisjoint | src/configfile/parser.cpp:14-32 | The three classes are told apart by the first character (an identifier start, `-`, `$`), so no token is in two of them. |
| Attributes.StartsAttributeAppend | src/configfile/parser.cpp:14-32 | Appending text without line terminators keeps a token in its class, because every pattern ends in `.*`. |
| Attributes.IdentEnd | src/configfile/parser.cpp:35 | The greedy `[_a-zA-Z0-9]*` scan stops at the first non-identifier character. |
| Attributes.AttributeName | src/configfile/parser.cpp:34-44 | `getAttributeName` fails (with `InvalidAttribute(token)`) exactly when the token starts with no identifier, `$`+identifier or `->`+identifier. Otherwise the name is a prefix of the token: an optional sigil plus the longest identifier. |
| Attributes.AttributeNameOfAttribute | src/configfile/parser.cpp:34-44 | For a token that starts an attribute, the name succeeds, is followed by `:`, and carries the token's sigil. |
| Attributes.NumeralEnd | src/configfile/parser.cpp:47 | The match of `\d+(?:\.\d+)?` takes at least one character and stops only at a non-digit or the end of the token. |
| Attributes.DigitsEndDigits | src/configfile/parser.cpp:47 | Every character the `\d+` scan passes over is a digit. |
| Attributes.NumeralEndSplit | src/configfile/parser.cpp:47 | The match is greedy: a maximal run of digits, then, exactly when a digit follows a `.`, that dot and a maximal run of digits. On `12.5` it is all four characters; on `12.x` it is `12`. |
| Attributes.NumeralSplitUnique | src/configfile/parser.cpp:47 | Only one split has that shape, so the match end is determined. |
| Attributes.NumericMatch | src/configfile/parser.cpp:46-51 | The search finds the leftmost `:` followed by a digit, and reports none when there is no such position. |
| Attributes.StringMatch | src/configfile/parser.cpp:59-64 | The search finds the leftmost `:"` whose closing `"` ends the token. |
| Attributes.VectorMatch | src/configfile/parser.cpp:72-77 | The search finds the leftmost `:(n,n,n)`, and reports none when no position matches. |
| Attributes.NumericRoundTrip | src/configfile/parser.cpp:46-57 | `name:n` reads back as `n` for every natural number. |
| Attributes.DecimalRoundTrip | src/configfile/parser.cpp:46-57 | `name:ip.fp` reads back as `ip + fp / 10^d`, where `d` is the number of digits of `fp`. |
| Attributes.NegativeRejected | src/configfile/parser.cpp:46-51 | No sign is accepted: `i:-3` is an `InvalidNumericAttribute` error. |
| Attributes.StringRoundTrip | src/configfile/parser.cpp:59-70 | `name:"s"` reads back as `s`, whatever quotes or colons `s` holds. |
| Attributes.VectorDigits | src/configfile/parser.cpp:72-85 | `name:(a,b,c)` with digit strings reads as the three digit values. |
| Attributes.VectorRoundTrip | src/configfile/parser.cpp:72-85 | `name:(a,b,c)` written from naturals reads back as `(a, b, c)`. |
| Attributes.NatDigits | src/configfile/parser.cpp:56 | The decimal digits of `n` are a non-empty digit string whose value is `n`, which is how `stof` is read here. |
| LineSyntax.SplitTokens | src/configfile/parser.cpp:250-257 | The `ss >> token` loop yields exactly the tokens of the line. |
| LineSyntax.TokensWellFormed | src/configfile/parser.cpp:255-256 | Every token is non-empty and holds no whitespace. |
| LineSyntax.TokensConcat | src/configfile/parser.cpp:255-257 | Gluing the tokens back together gives the line with its whitespace removed. |
| LineSyntax.TokensArePlain | src/configfile/parser.cpp:255-257 | No token holds a line terminator. |
| LineSyntax.CondenseTokens | src/configfile/parser.cpp:259-280 | The condensing loop gives the object type and the attributes of `Condense`. |
| LineSyntax.CondenseStarted | src/configfile/parser.cpp:260-276 | The `NOT_STARTED` sentinel is replaced as soon as any token follows the object type, and never comes back. |
| LineSyntax.CondenseCount | src/configfile/parser.cpp:263-280 | There is one attribute per attribute-starting token, plus one when a stray token comes first. |
| LineSyntax.CondenseProperties | src/configfile/parser.cpp:259-280 | The first token is the object type. The attributes glue back to the sentinel (exactly when a stray token comes first) followed by all later tokens. Every attribute except a leading stray one starts an attribute. |
| LineSyntax.FlushConcat | src/configfile/parser.cpp:263-280 | After the final push the attributes glue back to the sentinel (when a stray token comes first) followed by the tokens. |
| LineSyntax.FlushStarts | src/configfile/parser.cpp:263-280 | After the final push every attribute except a leading stray one starts an attribute. |
| LineSyntax.FlushCount | src/configfile/parser.cpp:263-280 | After the final push there is one attribute per attribute-starting token, plus one for a stray prefix. |
| Builders.Classify | src/configfile/parser.cpp:89-106 | One attribute of a builder either yields an assignment the builder's schema allows, or a builder-level error. |
| Builders.ClassifyOutcome | src/configfile/parser.cpp:89-106 | "Unrecognized attribute" is raised exactly when the token's class has no branch in the builder. An accepted name and value are what `getAttributeName` and the value extractors return. A known class with an unknown name raises the error for that class, naming it. |
| Builders.ClassifyUnrecognized | src/configfile/parser.cpp:89-106 | "Unrecognized attribute" is raised exactly when the token's class has no branch in the builder. |
| Builders.ClassifyAccepted | src/configfile/parser.cpp:89-106 | An accepted attribute is of its own class and carries the name and value that `getAttributeName` and the value extractors return. |
| Builders.ClassifyUnknownName | src/configfile/parser.cpp:89-106 | A known class with an unknown name raises that class's error, naming the attribute, which the branch does not accept. |
| Builders.ClassifyAll | src/configfile/parser.cpp:89-107 | When every attribute is accepted, there is one assignment per attribute, in order. |
| Builders.ClassifyAllFails | src/configfile/parser.cpp:89-107 | A builder fails exactly when some attribute fails. |
| Builders.ClassifyAllFirstError | src/configfile/parser.cpp:89-107 | The builder's error is the error of its first failing attribute. |
| Builders.BuildObject | src/configfile/parser.cpp:87-109 | The builder loop fills a default object attribute by attribute and stops at the first error, as `Build` specifies. |
| Builders.LastNamed | src/configfile/parser.cpp:89-107 | The result has the given name and is one of the assignments, or it is none exactly when no assignment has that name. |
| Builders.LastNamedIsLast | src/configfile/parser.cpp:89-107 | The assignment found sits at a position after which no assignment has that name: it is the last one. |
| Builders.LastWriteWins | src/configfile/parser.cpp:89-107 | A repeated attribute overwrites the earlier one: a field ends as its last assignment sets it, or keeps its initial value. |
| Builders.LightFromLastAttributes | src/configfile/parser.cpp:87-109 | A light's position and intensity come from its last `->pos` and last `i` attributes, or stay zero. |
| Builders.RegisteredNames | src/configfile/parser.cpp:232-237 | The names a material line registers are exactly the values of its `$name` attributes. |
| Builders.MaterialNameFromLast | src/configfile/parser.cpp:232-237 | A material's name is its last `$name` value, or empty without one. It registers some name exactly when it has a `$name`. |
| Builders.GlobalOnlyAmbientAndFocalLength | src/configfile/parser.cpp:135-150 | `global` changes `ambient` and `focal_length` and nothing else in the rendering info. |
| Parser.ParseLight | src/configfile/parser.cpp:87-109 | `parseLight` appends one point light built from the attributes, or fails. |
| Parser.ParseDirection | src/configfile/parser.cpp:111-133 | `parseDirection` replaces the directional light, or fails. |
| Parser.ParseGlobal | src/configfile/parser.cpp:135-150 | `parseGlobal` stores into the rendering info, or fails. |
| Parser.ParseSphere | src/configfile/parser.cpp:152-181 | `parseSphere` appends one unresolved sphere, or fails. |
| Parser.ParseTriangle | src/configfile/parser.cpp:183-209 | `parseTriangle` appends one unresolved triangle, or fails. |
| Parser.BuildMaterial | src/configfile/parser.cpp:211-246 | The `parseMaterial` loop builds the material and collects every `$name` it registers. |
| Parser.SceneParser.constructor | src/configfile/parser.cpp:12 | The material map starts empty. |
| Parser.SceneParser.ParseMaterial | src/configfile/parser.cpp:211-246 | Appends the material and registers it in the parser's map under each of its names, as `AddMaterial` specifies. |
| Parser.SceneParser.ParseLine | src/configfile/parser.cpp:248-296 | Tokenises, condenses and dispatches one line, updating info and map as `ParseLineSpec` specifies. |
| Parser.SceneParser.ParseFile | src/configfile/parser.cpp:298-329 | Runs the line loop, then sphere and triangle resolution, with the result and final map of `ParseFileSpec`. |
| Parser.DispatchEffect | src/configfile/parser.cpp:281-295 | An unknown object type is the error naming it. Otherwise one builder appends exactly one object to its own list and keeps the others as prefixes. `direction` alone sets the directional light. `global` alone changes ambient and focal length. Only `material` changes the map. |
| Parser.RegisterEffect | src/configfile/parser.cpp:237 | Registration adds exactly the new names and maps each to the material. Every other name keeps its entry, and no names leaves the map as it was. |
| Parser.MaterialRegistration | src/configfile/parser.cpp:211-246 | After a `material` line the map holds the finished material under each of its `$name` values, replacing earlier entries, and leaves other names alone. |
| Parser.ResolveSpheres | src/configfile/parser.cpp:316-321 | On success, every sphere points at the material its name maps to, and nothing else changes. |
| Parser.ResolveTriangles | src/configfile/parser.cpp:322-327 | On success, every triangle points at the material its name maps to, and nothing else changes. |
| Parser.ResolveSphereMaterials | src/configfile/parser.cpp:316-321 | The sphere loop computes `ResolveSpheres`. |
| Parser.ResolveTriangleMaterials | src/configfile/parser.cpp:322-327 | The triangle loop computes `ResolveTriangles`. |
| Parser.ResolveSpheresFails | src/configfile/parser.cpp:316-321 | Resolution fails exactly when some sphere's name is unregistered, and the error names the first such sphere. |
| Parser.ResolveTrianglesFails | src/configfile/parser.cpp:322-327 | Resolving the triangles fails exactly when some triangle's name is unregistered, and the error names the first such triangle. |
| Parser.ResolveFailsIff | src/configfile/parser.cpp:316-328 | After the last line, resolution fails exactly when some sphere or triangle names an unregistered material. |
| Parser.ResolveSphereFirst | src/configfile/parser.cpp:316-321 | Spheres are resolved first: when a sphere material is missing, the error names the first missing one in file order. |
| Parser.ResolveTriangleFirst | src/configfile/parser.cpp:316-327 | When every sphere material is registered and a triangle material is missing, the error names the first missing triangle material. |
| Parser.ParseFileResolves | src/configfile/parser.cpp:298-328 | Once the lines parse, `parseFile`'s result is that of the resolution pass on the parsed state. |
| Parser.ParseFileResolved | src/configfile/parser.cpp:316-328 | After a successful parse, every sphere and every triangle points at the material its name maps to in the final map. |
| Parser.ParseLinesErrorPersists | src/configfile/parser.cpp:303-311 | The first failing line's error ends the parse: later lines do not change it. |
| Parser.ParsedLines | src/configfile/parser.cpp:303-311 | The lines that get parsed are neither empty nor `#` comments. |
| Parser.ParseLinesSkips | src/configfile/parser.cpp:303-311 | The line loop equals parsing, in order, exactly the lines that are neither empty nor comments. |
| Colors.AddProperties | src/renderer/renderer_types.h:16-21 | `+` is commutative and no channel exceeds 1. The red channel is `min(r1 + r2, 1)`. The sum stays in `[0, 1]` for inputs in range, and black is neutral for colours in range. |
| Colors.AddAssociative | src/renderer/renderer_types.h:16-21 | On colours with nonnegative channels, saturating addition is associative. |
| Colors.ScaleProperties | src/renderer/renderer_types.cpp:11-19 | `Color*f` equals `f*Color`. Both scale each channel without clamping. Scaling by 1 is the identity and by 0 gives black. |
| Colors.FromHexInRange | src/renderer/renderer_types.cpp:3-9 | Every channel of a decoded literal lies in `[0, 1]`. |
| Colors.FromHexIgnoresHighBits | src/renderer/renderer_types.cpp:5-7 | Bits above bit 23 do not matter. |
| Colors.FromHexPack | src/renderer/renderer_types.cpp:3-9 | Red comes from bits 16-23, green from bits 8-15 and blue from bits 0-7, each divided by 255. |
| Colors.PackBytes | src/renderer/renderer_types.cpp:5-7 | The masks and shifts recover the three packed bytes. |
| Colors.FromHexWhiteBlack | src/renderer/renderer_types.cpp:3-9 | `0xFFFFFF_c` is white and `0_c` is black. |
| Colors.IndexBijective | src/renderer/renderer_types.h:39-41 | `y * WIDTH + x` maps the in-range pixels one-to-one onto the buffer, and `x` and `y` can be recovered from it. |
| Colors.Frame.constructor | src/renderer/renderer_types.h:37 | A new frame has WIDTH x HEIGHT pixels, all black. |
| Colors.Frame.SetColor | src/renderer/renderer_types.h:41 | Afterwards `getColor(x, y)` is `p` and every other pixel is unchanged. |
| Colors.Frame.Clear | src/renderer/renderer_types.h:43 | The size is kept and every pixel is black. |
| Texture.FlattenLayout | src/renderer/renderer.cpp:132-143 | There are four floats per colour. Colour `i` sits at `4i .. 4i+3` as r, g, b and alpha 1. |
| Texture.FlattenSnoc | src/renderer/renderer.cpp:136-140 | One more pixel appends its four values. |
| Texture.GetTextureData | src/renderer/renderer.cpp:132-143 | The result has `4 * WIDTH * HEIGHT` floats. Pixel `(x, y)` occupies `4 (y WIDTH + x)` onward as r, g, b and 1, and the frame is only read. |
| Vectors.ConstructorsZeroFill | src/vect/vect.h:12-14 | The default constructor is the zero vector, and the two-argument constructor sets `z = 0`. |
| Vectors.AtOutOfRange | src/vect/vect.h:38-47 | `operator[]` returns 0 for every index other than 0, 1 and 2. |
| Vectors.EqualIsComponentwise | src/vect/vect.h:49 | `==` holds exactly when all three components agree. |
| Vectors.AddSubComponentwise | src/vect/vect.h:52-55 | `+` and `-` act independently on each index. |
| Vectors.NegIsScaleMinusOne | src/vect/vect.h:57-58 | Unary `-` is scaling by -1, and `u - v == u + (-v)`. |
| Vectors.ScaleLeftComponentwise | src/vect/vect.cpp:4 | `s*v` equals `v*s` and scales every index by `s`. |
| Vectors.ScaleLaws | src/vect/vect.cpp:4 | `1*v = v`, `0*v` is zero, and `s*(t*v) = (s t)*v`. |
| Vectors.DotSymmetricLinear | src/vect/vect.h:66 | The dot product is commutative and linear in its first argument. |
| Vectors.DotSelf | src/vect/vect.h:66 | `v . v >= 0`, and it is zero only for the zero vector. |
| Vectors.DotAlongRay | src/vect/vect.h:66 | The squared distance along a ray is a quadratic in `t`. |
| Vectors.MagProperties | src/vect/vect.h:69 | `mag` is nonnegative, squares to `v . v`, and is zero only for zero. |
| Vectors.NormalizeUnit | src/vect/vect.h:73-76 | A nonzero vector normalizes to magnitude 1 in the same direction. |
| Vectors.ProjectOntoValue | src/vect/vect.h:78 | For nonzero `u`, `projectOnto(u)` is `v . u` divided by the magnitude of `u`. |
| Matrices.RowMajor | src/matrix/matrix.cpp:10-24 | The 9 arguments are stored row-major: entry `(r, c)` is argument `3r + c`. |
| Matrices.ZeroMatrix | src/matrix/matrix.cpp:3-8 | All nine entries are 0. |
| Matrices.SumLaws | src/matrix/matrix.cpp:30-35 | `+=` is commutative and associative, and adding the zero matrix changes nothing. |
| Matrices.DifferenceLaws | src/matrix/matrix.cpp:37-42 | `-= b` is `+=` of `b` scaled by -1; `a -= a` gives the zero matrix; adding `b` back after `-= b` restores the matrix. |
| Matrices.ScaledLaws | src/matrix/matrix.cpp:60-65 | Scaling by `f` then `g` is scaling by `f g`; scaling by 1 changes nothing; scaling distributes over `+=`. |
| Matrices.DividedLaws | src/matrix/matrix.cpp:67-72 | For nonzero `f`, `/= f` is scaling by `1 / f`, and `*= f` undoes it. |
| Matrices.Transposed | src/matrix/matrix.cpp:80-92 | The new `(i, j)` is the old `(j, i)`. |
| Matrices.TransposeInvolution | src/matrix/matrix.cpp:80-92 | Transposing twice gives the matrix back. |
| Matrices.DetTranspose | src/matrix/matrix.cpp:74-78 | The first-row cofactor determinant of the transpose equals the determinant. |
| Matrices.IdentityLaws | src/matrix/matrix.cpp:74-78 | The identity matrix has determinant 1 and is neutral for the product on both sides. |
| Matrices.InverseUpdates | src/matrix/matrix.cpp:30-42 | `-= b` undoes `+= b`, and `/= f` undoes `*= f` for nonzero `f`. |
| Matrices.AccumulatedProduct | src/matrix/matrix.cpp:46-52 | The triple loop's sums, taken from zero, are the entries of the matrix product. |
| Matrices.ZeroedAccumulation | src/matrix/matrix.cpp:44-58 | Cells that accumulated their inner products from zero hold the product. |
| Matrices.ProductAsWritten | src/matrix/matrix.cpp:44-58 | `*=` as written adds the product onto the uninitialised contents of `temp`. |
| Matrices.ProductAsWrittenCounterexample | src/matrix/matrix.cpp:45-49 | With `temp` holding ones, `I *= I` gives 2 at `(0, 0)` instead of 1. |
| Matrices.ProductAsWrittenZeroed | src/matrix/matrix.cpp:44-58 | With `temp` zeroed, the as-written loop gives the product. |
| Matrices.AccumulateEntry | src/matrix/matrix.cpp:48-50 | The innermost loop adds row `i` times column `j` onto one cell and leaves the others. |
| Matrices.AccumulateProduct | src/matrix/matrix.cpp:46-52 | The outer loops give every cell its inner product on top of what it held. |
| Matrices.ZeroedProduct | src/matrix/matrix.cpp:45-52 | A fresh `temp`, zeroed and then filled by the triple loop, holds the matrix product. |
| Matrices.TransposedCopy | src/matrix/matrix.cpp:81-86 | A fresh `temp` whose entry `(i, j)` is entry `(j, i)` of the matrix. |
| Matrices.Matrix3D.constructor | src/matrix/matrix.cpp:3-8 | A new matrix is all zeros. |
| Matrices.Matrix3D.FromEntries | src/matrix/matrix.cpp:10-24 | The entries are stored row-major. |
| Matrices.Matrix3D.At | src/matrix/matrix.h:14 | `(row, col)` reads `data[row * 3 + col]`. |
| Matrices.Matrix3D.Determinant | src/matrix/matrix.cpp:74-78 | The first-row cofactor expansion of the current entries. |
| Matrices.Matrix3D.AddAssign | src/matrix/matrix.cpp:30-35 | In place, the entries become the entrywise sum (also when `m` is this matrix). |
| Matrices.Matrix3D.SubAssign | src/matrix/matrix.cpp:37-42 | In place, the entries become the entrywise difference. |
| Matrices.Matrix3D.MulAssign | src/matrix/matrix.cpp:44-58 | In place, the entries become the matrix product, with `temp` zeroed first. |
| Matrices.Matrix3D.ScaleAssign | src/matrix/matrix.cpp:60-65 | In place, every entry is scaled by `f`. |
| Matrices.Matrix3D.DivAssign | src/matrix/matrix.cpp:67-72 | In place, every entry is divided by `f`. |
| Matrices.Matrix3D.Transpose | src/matrix/matrix.cpp:80-92 | In place transpose through a temporary. |
| Hits.SphereEquation | src/raytracer/raytracer.cpp:7-11 | A point of the ray lies on the sphere exactly when its parameter is a root of `a t^2 + b t + c` with the source's `a`, `b`, `c`. |
| Hits.NoRoot | src/raytracer/raytracer.cpp:13-14 | A negative discriminant means the ray's line misses the sphere. |
| Hits.SmallerRoot | src/raytracer/raytracer.cpp:16-19 | `(-b - sqrt(disc)) / 2a` is the smaller of the two computed roots. |
| Hits.LesserRootFirst | src/raytracer/raytracer.cpp:16-19 | The lesser root is the first parameter at which the line meets the sphere. |
| Hits.SphereTestOutcome | src/raytracer/raytracer.cpp:9-23 | No hit for a negative discriminant. Otherwise the hit is the lesser root exactly when it lies in `[min_t, max_t]`, and none otherwise. |
| Hits.SphereHitExact | src/raytracer/raytracer.cpp:3-24 | For a nonzero direction, a hit is the first point of the sphere on the ray's line and lies in the closed `[min_t, max_t]`. No hit means that first point is out of range or missing. |
| Hits.GuardedSphereHit | src/raytracer/raytracer.cpp:3-24 | The same for the guarded test, which never hits along a zero direction. |
| Hits.CramerIdentity | src/raytracer/raytracer.cpp:31-55 | The source's numerators solve `beta (p0-p1) + gamma (p0-p2) + t D = p0 - origin` scaled by `M`. |
| Hits.SystemIsDeterminants | src/raytracer/raytracer.cpp:31-55 | `M` and the three numerators are the determinants of Cramer's rule. |
| Hits.CramerSolves | src/raytracer/raytracer.cpp:48-55 | For `M != 0`, the computed `(beta, gamma, t)` put the ray point at the barycentric point. |
| Hits.CramerUnique | src/raytracer/raytracer.cpp:48-55 | For `M != 0`, any `(beta, gamma, t)` that does so is the computed one. |
| Hits.TriangleHitExact | src/raytracer/raytracer.cpp:26-60 | For `M != 0`, a hit lies in the half-open `[t_min, t_max)` with the point inside the triangle (`0 <= gamma <= 1`, `0 <= beta <= 1 - gamma`). Every such parameter is the hit. |
| Hits.GuardedTriangleHit | src/raytracer/raytracer.cpp:26-60 | The same for the guarded test, which never hits a singular system. |
| Hits.DegenerateTriangleSingular | src/raytracer/raytracer.cpp:31-49 | A triangle with `p0 == p1` makes `M` and the numerator of `t` both zero. |
| Hits.SphereFloatAgrees | src/raytracer/raytracer.cpp:3-24 | On floats, for a nonzero direction, the sphere test as written gives the same answer as the real test, with a finite `t`. |
| Hits.ZeroDirectionQuadratic | src/raytracer/raytracer.cpp:7-13 | A zero direction gives `a = b = 0` and a zero discriminant. |
| Hits.NoLeadHitsNaN | src/raytracer/raytracer.cpp:13-23 | With `a = b = 0` and a zero discriminant, both roots are `0 / 0`, and NaN passes both range tests: a hit at NaN. |
| Hits.ZeroDirectionHits | src/raytracer/raytracer.cpp:3-24 | On floats, a zero direction makes every sphere report a hit at NaN, for any range; the guarded test reports none. |
| Hits.TriangleFloatAgrees | src/raytracer/raytracer.cpp:26-60 | On floats, for `M != 0`, the triangle test as written gives the same answer as the real test. |
| Hits.CollapsedEdgeHits | src/raytracer/raytracer.cpp:26-60 | On floats, with `p0 == p1` and a zero numerator of `beta`, `t`, `gamma` and `beta` are all NaN and the test reports a hit at NaN; the guarded test reports none. |
| Hits.PointTriangleHits | src/raytracer/raytracer.cpp:26-60 | On floats, a triangle whose three corners coincide reports a hit at NaN for every ray; the guarded test reports none. |
| Floats.Div | src/raytracer/raytracer.cpp:17-18 | Float division with finite operands: the real quotient for a nonzero divisor, NaN for `0 / 0`, and an infinity with the dividend's sign otherwise. |
| Floats.OneMinus | src/raytracer/raytracer.cpp:56 | `1 - gamma` is the real difference for a finite `gamma` and NaN exactly for a NaN `gamma`. |
| Floats.StdMin | src/raytracer/raytracer.cpp:19 | `std::min(t1, t2)` is one of its arguments, and it is NaN whenever `t1` is NaN. |
| RayTracing.ShadowedMeansBlocked | src/raytracer/raytracer.cpp:62-77 | The shadow query is true exactly when some sphere or triangle meets the ray inside `[0.0001, t_max]` (spheres) or `[0.0001, t_max)` (triangles). |
| RayTracing.Raytracer.InShadow | src/raytracer/raytracer.cpp:62-77 | Scans spheres, then triangles, stopping at the first hit. The answer is `Shadowed`. |
| RayTracing.SphereCandidate | src/raytracer/raytracer.cpp:86-92 | A sphere's candidate carries the sphere's material and a `t` in `[0, FLT_MAX]`. |
| RayTracing.TriangleNormal | src/raytracer/raytracer.cpp:106-112 | The triangle normal faces against the ray: `n . direction <= 0`. |
| RayTracing.TriangleCandidate | src/raytracer/raytracer.cpp:97-112 | A triangle's candidate carries the triangle's material and a `t` in `[0, FLT_MAX)`. |
| RayTracing.CandidateAt | src/raytracer/raytracer.cpp:84-113 | Candidate `k` is the hit of sphere `k` or, past the `n` spheres, of triangle `k - n`, in scene order. |
| RayTracing.NearestTOfSelect | src/raytracer/raytracer.cpp:84-113 | On floats, with finite parameters, the scans keep the `t` of the surface `Select` keeps. |
| RayTracing.NaNHitTaken | src/raytracer/raytracer.cpp:84-114 | A hit at NaN passes `return_t >= t` and is taken. It is not the miss value `FLT_MAX`, so it gets shaded. The next hit replaces it, because `t >= NaN` is false too. |
| RayTracing.SelectNearest | src/raytracer/raytracer.cpp:84-113 | The selected `t` is at most every accepted hit's. The result is the initial surface when nothing is closer, otherwise the first candidate of least `t` (ties keep the earlier primitive). |
| RayTracing.NearestHitExists | src/raytracer/raytracer.cpp:80-114 | The ray sees something exactly when some accepted hit is below `FLT_MAX`. |
| RayTracing.NearestMaterial | src/raytracer/raytracer.cpp:89-100 | The material seen is the default or the material of some sphere or triangle. |
| RayTracing.Raytracer.NearestHit | src/raytracer/raytracer.cpp:80-113 | The two scans compute `Nearest`. |
| RayTracing.Raytracer.ScanSpheres | src/raytracer/raytracer.cpp:84-93 | The sphere scan selects over the sphere candidates. |
| RayTracing.Raytracer.ScanTriangles | src/raytracer/raytracer.cpp:95-113 | The triangle scan continues from the closest sphere to `Nearest`. |
| RayTracing.Raytracer.TriangleRound | src/raytracer/raytracer.cpp:97-112 | One round of the triangle scan extends the selection by one candidate. |
| RayTracing.TriangleStep | src/raytracer/raytracer.cpp:97-112 | A triangle replaces the current surface, with its own material and the flipped unit normal, exactly when its hit is strictly closer. |
| RayTracing.ScanComplete | src/raytracer/raytracer.cpp:95-113 | The selection over all the candidates is `Nearest`. |
| RayTracing.LightAt | src/raytracer/raytracer.cpp:124-131 | The loop has one round per point light, then one for the directional light only if present. Point lights use range 1.0, the directional light `FLT_MAX` and its negated direction. |
| RayTracing.ShadeAccumulate | src/raytracer/raytracer.cpp:133-142 | A round adds its light's diffuse and specular terms, or nothing when shadows are on and the light is blocked. |
| RayTracing.Raytracer.LightRound | src/raytracer/raytracer.cpp:126-142 | One round's terms: zero when shadows are on and the shadow query answers true, otherwise the Phong terms. |
| RayTracing.Raytracer.LightLoop | src/raytracer/raytracer.cpp:124-143 | The light loop's sums are `Shade` over `LightSources`. |
| RayTracing.AllShadowedDark | src/raytracer/raytracer.cpp:133 | With shadows on and every light blocked, the diffuse and specular sums are zero, so only the ambient term is left. |
| RayTracing.ShadowsOff | src/raytracer/raytracer.cpp:133 | With shadows off, every light contributes. |
| RayTracing.Reflect | src/raytracer/raytracer.cpp:147 | For a unit normal, `r . n = -(d . n)`. |
| RayTracing.ReflectKeepsLength | src/raytracer/raytracer.cpp:147 | For a unit normal, mirroring keeps the direction's length. |
| RayTracing.ReflectionDepth | src/raytracer/raytracer.cpp:145-149 | Recursion happens only with `bounces > 0` and `mirror > 0`, always with `bounces - 1`, so the depth is at most `bounces` (3 from `render`). |
| RayTracing.SameReflectionSameTrace | src/raytracer/raytracer.cpp:114-155 | Two budgets give the same colour when they agree on whether the nearest hit reflects and on what the reflected ray sees. |
| RayTracing.DepthSuffices | src/raytracer/raytracer.cpp:145-149 | When the budget exceeds the reflection depth, no reflection was cut off: any larger budget traces the same colour. |
| RayTracing.DepthStable | src/raytracer/raytracer.cpp:145-149 | In that case any larger budget also reaches the same depth. |
| RayTracing.MissIsBlack | src/raytracer/raytracer.cpp:114 | A ray that no primitive accepts is black. |
| RayTracing.NoMirrorsNoRecursion | src/raytracer/raytracer.cpp:145-149 | Without mirrors nothing recurses, and the bounce budget does not change the colour. |
| RayTracing.Raytracer.RayCast | src/raytracer/raytracer.cpp:79-156 | `rayCast` computes `Trace`. |
| RayTracing.UnrotatedRay | src/raytracer/raytracer.cpp:164-180 | With `theta = 0`, the ray goes through the view-plane point at depth `focal_length`. |
| RayTracing.CentreRayIsZero | src/raytracer/raytracer.cpp:170-180 | With the focal length of a scene without a `global` line, the centre pixel's ray is the zero vector. |
| RayTracing.Raytracer.PixelRay | src/raytracer/raytracer.cpp:172-180 | The pixel's ray, with `pixel_x` rotated before `z` is computed from it, is `PrimaryRay`. |
| RayTracing.Raytracer.RenderRow | src/raytracer/raytracer.cpp:171-184 | Row `y` is drawn and every other pixel is kept. |
| RayTracing.Raytracer.Render | src/raytracer/raytracer.cpp:158-186 | Afterwards every one of the WIDTH x HEIGHT pixels holds what its camera ray sees with 3 bounces. |
| RayTracing.Raytracer.SetTheta | src/raytracer/raytracer.cpp:190 | Sets the rotation. |
| RayTracing.Raytracer.constructor | src/raytracer/raytracer.h:9 | Keeps the origin and the rendering info. |

## Left out

- File I/O in `parseFile` is not modelled: opening the file, the `nullptr` and message on failure, and `getline`. The input is the file's lines.
- The parser's state after an error is not modelled. The source throws, nothing catches, and map entries made before the throw stay. The contracts speak about the map only on success.
- `std::stof` rounding and regex-engine internals are not modelled. A numeral reads as the exact decimal it denotes. A numeral beyond `FLT_MAX` makes `std::stof` throw `std::out_of_range`, which nothing catches; the model reads it as its exact value instead.
- Floating point is modelled over `real`: no rounding or overflow. Infinities and NaN appear only in the float versions of the two hit tests (`Floats`) and in `RayTracing.NearestT`; the renderer itself computes over reals with the guarded tests.
  - Float division is a parameter that is exact for a nonzero divisor and unspecified otherwise.
  - The float literals `0.0001f` and `3.1415926f` are taken as those exact decimals.
  - `FLT_MAX` is its exact value.
- `sqrt`, `pow`, `sin` and `cos` are parameters. Only "sqrt returns the nonnegative root" is assumed about them. The Phong diffuse and specular numbers and the camera rotation therefore stay symbolic: the model reproduces how they are computed but proves nothing about their values.
- The overwrite of `pixel_x` before `z` is computed from it is reproduced as written. As a result the rotation is not a rotation, and nothing is claimed about it.
- `Color::operator+=` is declared but never defined, so the ray tracer takes it as the parameter `addAssign`.
- `Material::mirror` and `RenderingInfo::shadows` are read by the ray tracer but not declared in `scenedata.h`. They are fields here that the parser never sets (0 and `false`).
- The header `raytracer.h` is stale: its declarations do not match `raytracer.cpp` and it has no `theta`. The constructor follows it, and `theta` is assumed to start at 0.
- `WIDTH` and `HEIGHT` come from a header that is not part of this model. They are fixed at 800 and 600; the proofs use only that they are positive, except `RayTracing.CentreRayIsZero`, which picks the centre pixel.
- Memory management is not modelled: `new`, ownership of heap objects, and the shallow copy of `Matrix3D`'s raw array on return by value. Materials are values, so a sphere holds a copy of the material its name resolved to.
- The static `material_map` is the `materialMap` field of a `SceneParser` object.
- Stream output (`operator<<` for `Color` and `Vect`) is not modelled, and neither is `Vect::slope`.
- The copy and move constructors and the assignment operators of `Vect` are not modelled separately: they are value copies.
- OpenGL/GLFW code, the shaders and `main` (including its theta sweep) are not modelled.
- `Matrix3D`: the header names `det()`, but the source defines `deteminant()`. The model follows the source.
- Matrices.Matrix3D.DivAssign: requires `f != 0`, because division by zero gives infinities or NaN, which reals do not have.
- Matrices.Divided: requires `f != 0`, for the same reason.
- Hits.HitsSphereAsWritten: requires a nonzero direction, so that every quotient is a real. `Hits.HitsSphereFloat` is the test as written for every direction, and `Hits.SphereFloatAgrees` ties the two. `Hits.HitsSphere` adds the guard and is what the ray tracer uses (see Findings).
- Hits.HitsTriangleAsWritten: requires `M != 0` for the same reason. `Hits.HitsTriangleFloat` and `Hits.TriangleFloatAgrees` are the float counterparts. `Hits.HitsTriangle` adds the guard.
- Floats.Div: signed zeros are not modelled. A zero divisor is taken as +0, so `x / 0` for `x != 0` may have the wrong sign of infinity. The NaN results (`0 / 0`) do not depend on this, and the lemmas about NaN hits use only those.
- The float scans of `rayCast` (`RayTracing.NearestT`) cover only the kept `t`. What shading a NaN hit gives is not modelled.
- Vectors.NormalizeUnit: requires a nonzero vector. The source divides by a zero magnitude for the zero vector.
- Vectors.ProjectOntoValue: requires a nonzero `u`, for the same reason.

## Findings

| source | as written | input that shows it | evidently intended | confidence | as-written member | corrected member |
|---|---|---|---|---|---|---|
| src/raytracer/raytracer.cpp:9-20 | The sphere test divides by `2a` with `a = direction . direction` unguarded. For a zero direction, `b = 0` and the discriminant is `0`, so `t = 0/0` (NaN). Both range tests are false for NaN, so it reports a hit. | A scene with no `global` line keeps `focal_length = 0`. Then pixel (400, 300) gets the ray `(0, 0, 0)`, and every sphere "hits" at NaN. | A zero direction hits nothing. | not executed | Hits.HitsSphereFloat, Hits.ZeroDirectionHits, RayTracing.NaNHitTaken, RayTracing.CentreRayIsZero | Hits.HitsSphere, Hits.GuardedSphereHit |
| src/raytracer/raytracer.cpp:48-56 | The triangle test divides by `M` unguarded. With `p0 == p1`, `M` and the numerators of `t` and `gamma` are 0, so `t` and `gamma` are NaN and pass their tests. When the numerator of `beta` is 0 too, `beta` is NaN and the test reports a hit at NaN. | A triangle line with `->p0:(0,0,0) ->p1:(0,0,0) ->p2:(0,0,0)`, for any ray. Or `->p0:(0,0,0) ->p1:(0,0,0) ->p2:(1,0,0)` with a ray from the origin, where the numerator of `beta` is 0. | A singular system hits nothing. | not executed | Hits.HitsTriangleFloat, Hits.CollapsedEdgeHits, Hits.PointTriangleHits, Hits.DegenerateTriangleSingular | Hits.HitsTriangle, Hits.GuardedTriangleHit |
| src/matrix/matrix.cpp:45-49 | `*=` accumulates into `new float[9]`, which is not initialised. The product is added onto whatever the cells held. | `temp` holding ones and `I *= I`: entry (0, 0) is 2. | `temp` starts at zero and the result is the product. | not executed | Matrices.ProductAsWritten, Matrices.ProductAsWrittenCounterexample | Matrices.Matrix3D.MulAssign, Matrices.ProductAsWrittenZeroed |
