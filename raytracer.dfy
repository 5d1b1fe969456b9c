/**
 * `Raytracer` of raytracer.cpp: the shadow query, the nearest-hit selection,
 * the light loop and the reflection recursion of `rayCast`, and the pixel
 * loop of `render`.
 *
 * Each method is proved equal to a pure function of its inputs: `Shadowed`
 * for `inShadow`, `Nearest` for the two scans at the start of `rayCast`,
 * `Shade` for the light loop, `Trace` for `rayCast` as a whole and
 * `PrimaryRay` for the camera ray of a pixel. The properties of the ray
 * tracer are proved about those functions.
 *
 * `Color::operator+=` is declared but never defined, so the object takes it
 * as the parameter `addAssign`. The numeric library is the parameter `lib`.
 */
module RayTracing {
  import opened Wrappers
  import opened RealMath
  import opened Vectors
  import Colors
  import opened SceneData
  import opened Hits
  import Floats

  /** `std::numeric_limits<float>::max()`. */
  const FLT_MAX: real := 340282346638528859811704183484516925440.0

  /** The `t_min` of `inShadow`, which keeps a surface from shadowing itself. */
  const SHADOW_T_MIN: real := 0.0001

  /** The reflection depth `render` passes to `rayCast`. */
  const BOUNCES: int := 3

  // ---------------------------------------------------------------- shadows

  /** Some sphere's hit test accepts the ray in `[SHADOW_T_MIN, tMax]`, or some triangle's in `[SHADOW_T_MIN, tMax)`. */
  function Shadowed(lib: MathLib, info: RenderingInfo, origin: Vec3, d: Vec3, tMax: real): bool
  {
    (exists i :: 0 <= i < |info.spheres| && HitsSphere(lib, origin, d, info.spheres[i], SHADOW_T_MIN, tMax).Some?) ||
    (exists i :: 0 <= i < |info.triangles| && HitsTriangle(lib, origin, d, info.triangles[i], SHADOW_T_MIN, tMax).Some?)
  }

  /** A sphere blocks the ray: the first point of its surface on the ray lies in `[SHADOW_T_MIN, tMax]`. */
  ghost predicate SphereBlocks(s: Sphere, origin: Vec3, d: Vec3, tMax: real)
  {
    Dot(d, d) != 0.0 && exists t :: FirstOnSphere(s, origin, d, t) && SHADOW_T_MIN <= t <= tMax
  }

  /** A triangle blocks the ray: the ray meets it at a parameter in `[SHADOW_T_MIN, tMax)`. */
  ghost predicate TriangleBlocks(tri: Triangle, origin: Vec3, d: Vec3, tMax: real)
  {
    TriangleSystem(origin, d, tri).m != 0.0 && exists t :: OnTriangle(tri, origin, d, t) && SHADOW_T_MIN <= t < tMax
  }

  /** The shadow query answers true exactly when some primitive blocks the ray. */
  lemma {:induction false} ShadowedMeansBlocked(lib: MathLib, info: RenderingInfo, origin: Vec3, d: Vec3, tMax: real)
    requires Valid(lib)
    ensures Shadowed(lib, info, origin, d, tMax) <==>
      (exists i :: 0 <= i < |info.spheres| && SphereBlocks(info.spheres[i], origin, d, tMax)) ||
      (exists i :: 0 <= i < |info.triangles| && TriangleBlocks(info.triangles[i], origin, d, tMax))
  {
    forall i | 0 <= i < |info.spheres|
      ensures HitsSphere(lib, origin, d, info.spheres[i], SHADOW_T_MIN, tMax).Some? <==> SphereBlocks(info.spheres[i], origin, d, tMax)
    {
      GuardedSphereHit(lib, origin, d, info.spheres[i], SHADOW_T_MIN, tMax);
    }
    forall i | 0 <= i < |info.triangles|
      ensures HitsTriangle(lib, origin, d, info.triangles[i], SHADOW_T_MIN, tMax).Some? <==> TriangleBlocks(info.triangles[i], origin, d, tMax)
    {
      GuardedTriangleHit(lib, origin, d, info.triangles[i], SHADOW_T_MIN, tMax);
    }
  }

  // ---------------------------------------------------------------- nearest hit

  /** What `rayCast` keeps of the closest hit so far: `t`, `material` and `n`. */
  datatype Surface = Surface(t: real, material: Material, normal: Vec3)

  /** The state before the scans: `t = FLT_MAX`, a default material, a zero normal. */
  function NoHit(): Surface { Surface(FLT_MAX, DefaultMaterial(), Zero()) }

  /** The surface a sphere offers: its hit, its material and the outward normal at the hit point. */
  function SphereCandidate(lib: MathLib, origin: Vec3, d: Vec3, s: Sphere): (r: Option<Surface>)
    requires s.material.Some?
    ensures r.Some? ==> r.value.material == s.material.value && 0.0 <= r.value.t <= FLT_MAX
  {
    match HitsSphere(lib, origin, d, s, 0.0, FLT_MAX)
    case None => None
    case Some(t) => Some(Surface(t, s.material.value, Normalize(lib, Sub(RayPoint(origin, d, t), s.center))))
  }

  /** Flipping a vector negates its dot product with any other. */
  lemma FlipDot(n: Vec3, d: Vec3)
    ensures Dot(Scale(n, -1.0), d) == -Dot(n, d)
  {
  }

  /** The unit normal `(p1 - p0) x (p2 - p0)`, flipped to face against the ray. */
  function TriangleNormal(lib: MathLib, tri: Triangle, d: Vec3): (n: Vec3)
    ensures Dot(n, d) <= 0.0
  {
    var ab := Sub(tri.p1, tri.p0);
    var ac := Sub(tri.p2, tri.p0);
    var n := Normalize(lib, Vec3(ab.y * ac.z - ab.z * ac.y, ab.z * ac.x - ab.x * ac.z, ab.x * ac.y - ab.y * ac.x));
    FlipDot(n, d);
    if Dot(n, d) > 0.0 then Scale(n, -1.0) else n
  }

  /** The surface a triangle offers. */
  function TriangleCandidate(lib: MathLib, origin: Vec3, d: Vec3, tri: Triangle): (r: Option<Surface>)
    requires tri.material.Some?
    ensures r.Some? ==> r.value.material == tri.material.value && 0.0 <= r.value.t < FLT_MAX
  {
    match HitsTriangle(lib, origin, d, tri, 0.0, FLT_MAX)
    case None => None
    case Some(t) => Some(Surface(t, tri.material.value, TriangleNormal(lib, tri, d)))
  }

  /** Every sphere's candidate, then every triangle's, in scene order. */
  function Candidates(lib: MathLib, info: RenderingInfo, origin: Vec3, d: Vec3): (r: seq<Option<Surface>>)
    requires Resolved(info)
    ensures |r| == |info.spheres| + |info.triangles|
  {
    seq(|info.spheres|, i requires 0 <= i < |info.spheres| => SphereCandidate(lib, origin, d, info.spheres[i])) +
    seq(|info.triangles|, i requires 0 <= i < |info.triangles| => TriangleCandidate(lib, origin, d, info.triangles[i]))
  }

  /** Candidate `k` is sphere `k`'s, or past the spheres, triangle `k - |spheres|`'s. */
  lemma CandidateAt(lib: MathLib, info: RenderingInfo, origin: Vec3, d: Vec3, k: int)
    requires Resolved(info) && 0 <= k < |info.spheres| + |info.triangles|
    ensures Candidates(lib, info, origin, d)[k] ==
      if k < |info.spheres| then SphereCandidate(lib, origin, d, info.spheres[k])
      else TriangleCandidate(lib, origin, d, info.triangles[k - |info.spheres|])
  {
  }

  /** The scans of `rayCast`: a candidate replaces the current surface only when it is strictly closer. */
  function Select(init: Surface, cands: seq<Option<Surface>>): Surface
  {
    if |cands| == 0 then init
    else
      var cur := Select(init, cands[..|cands| - 1]);
      match cands[|cands| - 1]
      case None => cur
      case Some(c) => if c.t >= cur.t then cur else c
  }

  /** One more candidate: it replaces the current surface only when strictly closer. */
  lemma SelectStep(init: Surface, cands: seq<Option<Surface>>, i: int)
    requires 0 <= i < |cands|
    ensures Select(init, cands[..i + 1]) ==
      match cands[i]
      case None => Select(init, cands[..i])
      case Some(c) => if c.t >= Select(init, cands[..i]).t then Select(init, cands[..i]) else c
  {
    assert cands[..i + 1][..i] == cands[..i];
  }

  /**
   * The `t` the scans of `rayCast` keep, on floats: a hit is skipped when
   * `return_t >= t`, and otherwise becomes the new `t`.
   */
  function NearestT(init: Floats.Float, hits: seq<Option<Floats.Float>>): Floats.Float
  {
    if |hits| == 0 then init
    else
      var cur := NearestT(init, hits[..|hits| - 1]);
      match hits[|hits| - 1]
      case None => cur
      case Some(t) => if Floats.GreaterEq(t, cur) then cur else t
  }

  /** The candidates' parameters as floats. */
  function TimesOf(cands: seq<Option<Surface>>): (r: seq<Option<Floats.Float>>)
    ensures |r| == |cands|
    ensures forall k :: 0 <= k < |cands| ==> r[k] == if cands[k].None? then None else Some(Floats.Num(cands[k].value.t))
  {
    seq(|cands|, k requires 0 <= k < |cands| => if cands[k].None? then None else Some(Floats.Num(cands[k].value.t)))
  }

  /** On finite parameters the float scan keeps the `t` of the surface `Select` keeps. */
  lemma {:induction false} NearestTOfSelect(init: Surface, cands: seq<Option<Surface>>)
    ensures NearestT(Floats.Num(init.t), TimesOf(cands)) == Floats.Num(Select(init, cands).t)
  {
    if |cands| > 0 {
      var n := |cands| - 1;
      assert TimesOf(cands)[..n] == TimesOf(cands[..n]);
      NearestTOfSelect(init, cands[..n]);
      if cands[n].Some? {
        Floats.ComparisonsOnNumbers(cands[n].value.t, Select(init, cands[..n]).t);
      }
    }
  }

  /**
   * A hit at NaN is always taken, because `return_t >= t` is false for NaN;
   * it is not the miss value `FLT_MAX`, so `rayCast` shades it; and the next
   * hit replaces it, because `t >= NaN` is false too.
   */
  lemma NaNHitTaken(init: Floats.Float, hits: seq<Option<Floats.Float>>, t: Floats.Float)
    ensures NearestT(init, hits + [Some(Floats.NaN)]) == Floats.NaN != Floats.Num(FLT_MAX)
    ensures NearestT(init, hits + [Some(Floats.NaN), Some(t)]) == t
  {
    assert (hits + [Some(Floats.NaN)])[..|hits|] == hits;
    assert (hits + [Some(Floats.NaN), Some(t)])[..|hits| + 1] == hits + [Some(Floats.NaN)];
  }

  /** One more triangle in the scan, candidate `k`: it replaces the current surface only when its hit is strictly closer. */
  lemma TriangleStep(lib: MathLib, info: RenderingInfo, origin: Vec3, d: Vec3, k: int, cur: Surface)
    requires Resolved(info) && |info.spheres| <= k < |info.spheres| + |info.triangles|
    requires cur == Select(NoHit(), Candidates(lib, info, origin, d)[..k])
    ensures var tri := info.triangles[k - |info.spheres|];
      var hit := HitsTriangle(lib, origin, d, tri, 0.0, FLT_MAX);
      Select(NoHit(), Candidates(lib, info, origin, d)[..k + 1])
        == if hit.Some? && hit.value < cur.t then Surface(hit.value, tri.material.value, TriangleNormal(lib, tri, d)) else cur
  {
    var cands := Candidates(lib, info, origin, d);
    SelectStep(NoHit(), cands, k);
    CandidateAt(lib, info, origin, d, k);
  }

  /** The surface the ray sees. */
  function Nearest(lib: MathLib, info: RenderingInfo, origin: Vec3, d: Vec3): Surface
    requires Resolved(info)
  {
    Select(NoHit(), Candidates(lib, info, origin, d))
  }

  /** After every primitive the scans have selected the nearest surface. */
  lemma ScanComplete(lib: MathLib, info: RenderingInfo, origin: Vec3, d: Vec3, k: int)
    requires Resolved(info) && k == |info.spheres| + |info.triangles|
    ensures Select(NoHit(), Candidates(lib, info, origin, d)[..k]) == Nearest(lib, info, origin, d)
  {
    var cands := Candidates(lib, info, origin, d);
    assert cands[..k] == cands;
  }

  /**
   * The selection keeps the closest candidate, and of several equally close
   * ones the first: the result is either the initial surface, when no
   * candidate is closer, or the first candidate of least `t`.
   */
  lemma {:induction false} SelectNearest(init: Surface, cands: seq<Option<Surface>>)
    ensures var r := Select(init, cands);
      && r.t <= init.t
      && (forall k :: 0 <= k < |cands| && cands[k].Some? ==> r.t <= cands[k].value.t)
      && ((r == init && forall k :: 0 <= k < |cands| && cands[k].Some? ==> init.t <= cands[k].value.t) ||
          (exists k :: 0 <= k < |cands| && cands[k] == Some(r) && r.t < init.t &&
             forall j :: 0 <= j < k && cands[j].Some? ==> r.t < cands[j].value.t))
  {
    if |cands| > 0 {
      var prefix := cands[..|cands| - 1];
      SelectNearest(init, prefix);
      var cur := Select(init, prefix);
      assert forall k :: 0 <= k < |prefix| ==> cands[k] == prefix[k];
      match cands[|cands| - 1]
      case None =>
      case Some(c) =>
        if c.t < cur.t {
          assert cands[|cands| - 1] == Some(c);
        } else {
          assert Select(init, cands) == cur;
        }
    }
  }

  /** The ray sees something exactly when some primitive's hit is below `FLT_MAX`. */
  lemma {:induction false} NearestHitExists(lib: MathLib, info: RenderingInfo, origin: Vec3, d: Vec3)
    requires Resolved(info)
    ensures var cands := Candidates(lib, info, origin, d);
      Nearest(lib, info, origin, d).t != FLT_MAX <==>
        exists k :: 0 <= k < |cands| && cands[k].Some? && cands[k].value.t < FLT_MAX
  {
    SelectNearest(NoHit(), Candidates(lib, info, origin, d));
  }

  /** The material the ray sees is the default one or the material of a sphere or a triangle. */
  lemma {:induction false} NearestMaterial(lib: MathLib, info: RenderingInfo, origin: Vec3, d: Vec3)
    requires Resolved(info)
    ensures var m := Nearest(lib, info, origin, d).material;
      || m == DefaultMaterial()
      || (exists i :: 0 <= i < |info.spheres| && info.spheres[i].material == Some(m))
      || (exists i :: 0 <= i < |info.triangles| && info.triangles[i].material == Some(m))
  {
    var cands := Candidates(lib, info, origin, d);
    SelectNearest(NoHit(), cands);
    var r := Nearest(lib, info, origin, d);
    if r != NoHit() {
      var k :| 0 <= k < |cands| && cands[k] == Some(r);
      CandidateAt(lib, info, origin, d, k);
      if k < |info.spheres| {
        assert info.spheres[k].material == Some(r.material);
      } else {
        assert info.triangles[k - |info.spheres|].material == Some(r.material);
      }
    }
  }

  // ---------------------------------------------------------------- lights

  /** One iteration of the light loop: the unnormalised light direction, its intensity and the shadow range. */
  datatype LightSample = LightSample(direction: Vec3, intensity: real, tMax: real, directional: bool)

  /** The iterations of the light loop: every point light in order, then the directional light if there is one. */
  function LightSources(info: RenderingInfo, hit: Vec3): seq<LightSample>
  {
    seq(|info.pointLights|, i requires 0 <= i < |info.pointLights| =>
      LightSample(Sub(info.pointLights[i].position, hit), info.pointLights[i].intensity, 1.0, false)) +
    match info.dirLight
    case None => []
    case Some(dl) => [LightSample(Neg(dl.direction), dl.hIntensity, FLT_MAX, true)]
  }

  /** The light of round `i`: point light `i`, or in the extra round the directional light. */
  lemma LightAt(info: RenderingInfo, hit: Vec3, i: int)
    requires 0 <= i <= |info.pointLights|
    ensures |LightSources(info, hit)| == |info.pointLights| + if info.dirLight.Some? then 1 else 0
    ensures i < |info.pointLights| ==>
      LightSources(info, hit)[i] == LightSample(Sub(info.pointLights[i].position, hit), info.pointLights[i].intensity, 1.0, false)
    ensures i == |info.pointLights| && info.dirLight.Some? ==>
      LightSources(info, hit)[i] == LightSample(Neg(info.dirLight.value.direction), info.dirLight.value.hIntensity, FLT_MAX, true)
  {
  }

  /** The diffuse and specular terms one unshadowed light adds. */
  function LightTerms(lib: MathLib, light: LightSample, n: Vec3, v: Vec3, m: Material): (real, real)
  {
    var l := Normalize(lib, light.direction);
    var h := Normalize(lib, Add(v, l));
    var distanceSquared := Mag(lib, light.direction) * Mag(lib, light.direction);
    var irradiance := if light.directional then Dot(ScaleLeft(light.intensity, n), l) else lib.fdiv(light.intensity, distanceSquared);
    (irradiance * Max(0.0, Dot(n, l)), irradiance * m.glossiness * lib.pow(Max(0.0, Dot(n, h)), m.p))
  }

  /** The diffuse and specular sums of the light loop; a light in shadow (when shadows are on) adds nothing. */
  function Shade(lib: MathLib, info: RenderingInfo, hit: Vec3, n: Vec3, v: Vec3, m: Material, lights: seq<LightSample>): (real, real)
  {
    if |lights| == 0 then (0.0, 0.0)
    else
      var (diffuse, specular) := Shade(lib, info, hit, n, v, m, lights[..|lights| - 1]);
      var light := lights[|lights| - 1];
      if info.shadows && Shadowed(lib, info, hit, light.direction, light.tMax) then (diffuse, specular)
      else
        var (dd, ds) := LightTerms(lib, light, n, v, m);
        (diffuse + dd, specular + ds)
  }

  /** One more light: its terms are added unless it is in shadow and shadows are on. */
  lemma ShadeStep(lib: MathLib, info: RenderingInfo, hit: Vec3, n: Vec3, v: Vec3, m: Material, lights: seq<LightSample>, i: int)
    requires 0 <= i < |lights|
    ensures Shade(lib, info, hit, n, v, m, lights[..i + 1]) ==
      if info.shadows && Shadowed(lib, info, hit, lights[i].direction, lights[i].tMax)
      then Shade(lib, info, hit, n, v, m, lights[..i])
      else (Shade(lib, info, hit, n, v, m, lights[..i]).0 + LightTerms(lib, lights[i], n, v, m).0,
            Shade(lib, info, hit, n, v, m, lights[..i]).1 + LightTerms(lib, lights[i], n, v, m).1)
  {
    assert lights[..i + 1][..i] == lights[..i];
  }

  /** The light loop's sums after round `i`, given the sums before it and the round's terms. */
  lemma ShadeAccumulate(lib: MathLib, info: RenderingInfo, hit: Vec3, n: Vec3, v: Vec3, m: Material, lights: seq<LightSample>,
                        i: int, diffuse: real, specular: real, dd: real, ds: real)
    requires 0 <= i < |lights|
    requires (diffuse, specular) == Shade(lib, info, hit, n, v, m, lights[..i])
    requires (dd, ds) == if info.shadows && Shadowed(lib, info, hit, lights[i].direction, lights[i].tMax) then (0.0, 0.0)
                         else LightTerms(lib, lights[i], n, v, m)
    ensures (diffuse + dd, specular + ds) == Shade(lib, info, hit, n, v, m, lights[..i + 1])
  {
    ShadeStep(lib, info, hit, n, v, m, lights, i);
  }

  /** With shadows on and every light blocked, neither sum grows: only the ambient term is left. */
  lemma {:induction false} AllShadowedDark(lib: MathLib, info: RenderingInfo, hit: Vec3, n: Vec3, v: Vec3, m: Material, lights: seq<LightSample>)
    requires info.shadows
    requires forall i :: 0 <= i < |lights| ==> Shadowed(lib, info, hit, lights[i].direction, lights[i].tMax)
    ensures Shade(lib, info, hit, n, v, m, lights) == (0.0, 0.0)
  {
    if |lights| > 0 {
      var prefix := lights[..|lights| - 1];
      assert forall i :: 0 <= i < |prefix| ==> prefix[i] == lights[i];
      AllShadowedDark(lib, info, hit, n, v, m, prefix);
    }
  }

  /** With shadows off, the sums are the terms of every light, shadowed or not. */
  function Unshadowed(lib: MathLib, n: Vec3, v: Vec3, m: Material, lights: seq<LightSample>): (real, real)
  {
    if |lights| == 0 then (0.0, 0.0)
    else
      var (diffuse, specular) := Unshadowed(lib, n, v, m, lights[..|lights| - 1]);
      var (dd, ds) := LightTerms(lib, lights[|lights| - 1], n, v, m);
      (diffuse + dd, specular + ds)
  }

  /** The shadow query is only made when shadows are on. */
  lemma {:induction false} ShadowsOff(lib: MathLib, info: RenderingInfo, hit: Vec3, n: Vec3, v: Vec3, m: Material, lights: seq<LightSample>)
    requires !info.shadows
    ensures Shade(lib, info, hit, n, v, m, lights) == Unshadowed(lib, n, v, m, lights)
  {
    if |lights| > 0 {
      ShadowsOff(lib, info, hit, n, v, m, lights[..|lights| - 1]);
    }
  }

  // ---------------------------------------------------------------- reflection

  /** `direction - n * 2 * (direction . n)`, the mirror direction. */
  function Reflect(d: Vec3, n: Vec3): (r: Vec3)
    ensures Dot(n, n) == 1.0 ==> Dot(r, n) == -Dot(d, n)
  {
    Sub(d, Scale(Scale(n, 2.0), Dot(d, n)))
  }

  /** Mirroring in a unit normal keeps the length of the direction. */
  lemma ReflectKeepsLength(d: Vec3, n: Vec3)
    requires Dot(n, n) == 1.0
    ensures Dot(Reflect(d, n), Reflect(d, n)) == Dot(d, d)
  {
    var k := Dot(d, n);
    var r := Reflect(d, n);
    assert r == Sub(d, Scale(n, 2.0 * k));
    assert Dot(r, r) == Dot(d, d) - 4.0 * k * Dot(d, n) + 4.0 * k * k * Dot(n, n);
  }

  /** A surface reflects when bounces are left and its material is a mirror. */
  predicate Reflects(s: Surface, bounces: int)
  {
    bounces > 0 && s.material.mirror > 0.0
  }

  /** `rayCast(origin, d, bounces)`: the colour the ray sees. */
  function Trace(lib: MathLib, addAssign: (Colors.Color, Colors.Color) -> Colors.Color, info: RenderingInfo,
                 origin: Vec3, d: Vec3, bounces: int): Colors.Color
    requires Resolved(info)
    decreases if bounces > 0 then bounces else 0
  {
    var s := Nearest(lib, info, origin, d);
    if s.t == FLT_MAX then Colors.Black()
    else
      var reflection :=
        if Reflects(s, bounces)
        then Colors.ScaleRight(Trace(lib, addAssign, info, RayPoint(origin, d, s.t), Reflect(d, s.normal), bounces - 1), s.material.mirror)
        else Colors.Black();
      Lit(lib, addAssign, info, origin, d, s, reflection)
  }

  /** The colour at the surface `s` met by the ray: ambient and diffuse light, the specular highlight, then `reflection`. */
  function Lit(lib: MathLib, addAssign: (Colors.Color, Colors.Color) -> Colors.Color, info: RenderingInfo,
               origin: Vec3, d: Vec3, s: Surface, reflection: Colors.Color): Colors.Color
  {
    var hit := RayPoint(origin, d, s.t);
    var v := Normalize(lib, Sub(origin, hit));
    var (diffuse, specular) := Shade(lib, info, hit, s.normal, v, s.material, LightSources(info, hit));
    var color := Colors.ScaleRight(s.material.color, info.ambient + diffuse);
    addAssign(addAssign(color, Colors.ScaleRight(Colors.White(), specular)), reflection)
  }

  /** The number of nested `rayCast` calls a ray causes; never more than the bounces it starts with. */
  function ReflectionDepth(lib: MathLib, info: RenderingInfo, origin: Vec3, d: Vec3, bounces: int): (r: nat)
    requires Resolved(info)
    ensures r <= if bounces > 0 then bounces else 0
    decreases if bounces > 0 then bounces else 0
  {
    var s := Nearest(lib, info, origin, d);
    if s.t == FLT_MAX || !Reflects(s, bounces) then 0
    else 1 + ReflectionDepth(lib, info, RayPoint(origin, d, s.t), Reflect(d, s.normal), bounces - 1)
  }

  /** A ray that meets nothing is black. */
  lemma MissIsBlack(lib: MathLib, addAssign: (Colors.Color, Colors.Color) -> Colors.Color, info: RenderingInfo,
                    origin: Vec3, d: Vec3, bounces: int)
    requires Resolved(info)
    requires forall k :: 0 <= k < |info.spheres| ==> HitsSphere(lib, origin, d, info.spheres[k], 0.0, FLT_MAX).None?
    requires forall k :: 0 <= k < |info.triangles| ==> HitsTriangle(lib, origin, d, info.triangles[k], 0.0, FLT_MAX).None?
    ensures Trace(lib, addAssign, info, origin, d, bounces) == Colors.Black()
  {
    NearestHitExists(lib, info, origin, d);
  }

  /** No material of the scene is a mirror. */
  predicate NoMirrors(info: RenderingInfo)
  {
    (forall i :: 0 <= i < |info.spheres| && info.spheres[i].material.Some? ==> info.spheres[i].material.value.mirror <= 0.0) &&
    (forall i :: 0 <= i < |info.triangles| && info.triangles[i].material.Some? ==> info.triangles[i].material.value.mirror <= 0.0)
  }

  /** Without mirrors nothing recurses, so the bounce budget does not change the picture. */
  lemma {:induction false} NoMirrorsNoRecursion(lib: MathLib, addAssign: (Colors.Color, Colors.Color) -> Colors.Color,
                                                info: RenderingInfo, origin: Vec3, d: Vec3, bounces: int)
    requires Resolved(info) && NoMirrors(info)
    ensures Trace(lib, addAssign, info, origin, d, bounces) == Trace(lib, addAssign, info, origin, d, 0)
    ensures ReflectionDepth(lib, info, origin, d, bounces) == 0
  {
    NearestMaterial(lib, info, origin, d);
    var s := Nearest(lib, info, origin, d);
    assert !Reflects(s, bounces);
  }

  /** A budget beyond the depth reaches the same depth: the recursion stopped on a miss or a non-mirror, not on the budget. */
  lemma {:induction false} DepthStable(lib: MathLib, info: RenderingInfo, origin: Vec3, d: Vec3, bounces: int, more: int)
    requires Resolved(info)
    requires ReflectionDepth(lib, info, origin, d, bounces) < bounces <= more
    ensures ReflectionDepth(lib, info, origin, d, more) == ReflectionDepth(lib, info, origin, d, bounces)
    decreases bounces
  {
    var s := Nearest(lib, info, origin, d);
    if s.t != FLT_MAX && Reflects(s, bounces) {
      DepthStable(lib, info, RayPoint(origin, d, s.t), Reflect(d, s.normal), bounces - 1, more - 1);
    }
  }

  /** Two budgets trace the same colour when they agree on reflecting at the nearest hit and on what the reflected ray sees. */
  lemma SameReflectionSameTrace(lib: MathLib, addAssign: (Colors.Color, Colors.Color) -> Colors.Color,
                                info: RenderingInfo, origin: Vec3, d: Vec3, bounces: int, more: int)
    requires Resolved(info)
    requires var s := Nearest(lib, info, origin, d);
      s.t != FLT_MAX ==>
        && (Reflects(s, bounces) <==> Reflects(s, more))
        && (Reflects(s, bounces) ==>
              Trace(lib, addAssign, info, RayPoint(origin, d, s.t), Reflect(d, s.normal), bounces - 1) ==
              Trace(lib, addAssign, info, RayPoint(origin, d, s.t), Reflect(d, s.normal), more - 1))
    ensures Trace(lib, addAssign, info, origin, d, more) == Trace(lib, addAssign, info, origin, d, bounces)
  {
  }

  /**
   * `ReflectionDepth` counts the recursive `Trace` calls: once the budget
   * exceeds the depth, no reflection is cut off by the budget, so a larger
   * budget traces the same colour.
   */
  lemma {:induction false} DepthSuffices(lib: MathLib, addAssign: (Colors.Color, Colors.Color) -> Colors.Color,
                                         info: RenderingInfo, origin: Vec3, d: Vec3, bounces: int, more: int)
    requires Resolved(info)
    requires ReflectionDepth(lib, info, origin, d, bounces) < bounces <= more
    ensures Trace(lib, addAssign, info, origin, d, more) == Trace(lib, addAssign, info, origin, d, bounces)
    decreases bounces
  {
    var s := Nearest(lib, info, origin, d);
    if s.t != FLT_MAX && Reflects(s, bounces) {
      DepthSuffices(lib, addAssign, info, RayPoint(origin, d, s.t), Reflect(d, s.normal), bounces - 1, more - 1);
    }
    SameReflectionSameTrace(lib, addAssign, info, origin, d, bounces, more);
  }

  // ---------------------------------------------------------------- camera

  /** The camera ray of pixel `(x, y)`: the view plane `[-1, 1]`, squeezed by the aspect ratio, rotated by `theta` degrees. */
  function PrimaryRay(lib: MathLib, theta: real, focalLength: real, x: int, y: int): Vec3
  {
    var aspectRatio := lib.fdiv(Colors.WIDTH as real, Colors.HEIGHT as real);
    var rad := lib.fdiv(theta * 3.1415926, 180.0);
    var sinTheta := lib.sin(rad);
    var cosTheta := lib.cos(rad);
    var pixelX := -1.0 + (1.0 - -1.0) * lib.fdiv(x as real, Colors.WIDTH as real);
    var pixelY := lib.fdiv(-1.0 + (1.0 - -1.0) * lib.fdiv(y as real, Colors.HEIGHT as real), aspectRatio);
    var rotatedX := cosTheta * pixelX - sinTheta * focalLength;
    Vec3(rotatedX, pixelY, sinTheta * rotatedX + cosTheta * focalLength)
  }

  /** Without rotation the ray goes through the view-plane point at depth `focal_length`. */
  lemma UnrotatedRay(lib: MathLib, focalLength: real, x: int, y: int)
    requires Valid(lib) && lib.sin(0.0) == 0.0 && lib.cos(0.0) == 1.0
    ensures PrimaryRay(lib, 0.0, focalLength, x, y)
      == Vec3(-1.0 + 2.0 * (x as real / Colors.WIDTH as real),
              (-1.0 + 2.0 * (y as real / Colors.HEIGHT as real)) / (Colors.WIDTH as real / Colors.HEIGHT as real),
              focalLength)
  {
  }

  /**
   * With the focal length a scene gets when it has no `global` line, the ray
   * of the centre pixel is the zero vector, whatever the rotation.
   */
  lemma CentreRayIsZero(lib: MathLib, theta: real)
    requires Valid(lib)
    ensures PrimaryRay(lib, theta, EmptyInfo().focalLength, Colors.WIDTH / 2, Colors.HEIGHT / 2) == Zero()
    ensures Dot(Zero(), Zero()) == 0.0
  {
    var rad := lib.fdiv(theta * 3.1415926, 180.0);
    assert lib.fdiv(400.0, 800.0) == 0.5;
    assert lib.fdiv(300.0, 600.0) == 0.5;
    var aspectRatio := lib.fdiv(800.0, 600.0);
    assert aspectRatio != 0.0;
    assert lib.fdiv(0.0, aspectRatio) == 0.0;
    var rotatedX := lib.cos(rad) * 0.0 - lib.sin(rad) * 0.0;
    assert rotatedX == 0.0;
    assert lib.sin(rad) * rotatedX + lib.cos(rad) * 0.0 == 0.0;
  }

  // ---------------------------------------------------------------- the class

  class Raytracer {
    const lib: MathLib
    const addAssign: (Colors.Color, Colors.Color) -> Colors.Color
    const origin: Vec3
    const info: RenderingInfo
    var theta: real

    /** `Raytracer(origin, info)`; the rotation starts at zero. */
    constructor (lib: MathLib, addAssign: (Colors.Color, Colors.Color) -> Colors.Color, origin: Vec3, info: RenderingInfo)
      ensures this.lib == lib && this.addAssign == addAssign && this.origin == origin && this.info == info
      ensures theta == 0.0
    {
      this.lib := lib;
      this.addAssign := addAssign;
      this.origin := origin;
      this.info := info;
      theta := 0.0;
    }

    /** `setTheta(theta)`. */
    method SetTheta(theta: real)
      modifies this
      ensures this.theta == theta
    {
      this.theta := theta;
    }

    /** `inShadow(origin, direction, t_max)`: spheres first, then triangles, stopping at the first hit. */
    method InShadow(from: Vec3, d: Vec3, tMax: real) returns (b: bool)
      ensures b == Shadowed(lib, info, from, d, tMax)
    {
      var i := 0;
      while i < |info.spheres|
        invariant 0 <= i <= |info.spheres|
        invariant forall k :: 0 <= k < i ==> HitsSphere(lib, from, d, info.spheres[k], SHADOW_T_MIN, tMax).None?
      {
        if HitsSphere(lib, from, d, info.spheres[i], SHADOW_T_MIN, tMax).Some? {
          return true;
        }
        i := i + 1;
      }
      i := 0;
      while i < |info.triangles|
        invariant 0 <= i <= |info.triangles|
        invariant forall k :: 0 <= k < i ==> HitsTriangle(lib, from, d, info.triangles[k], SHADOW_T_MIN, tMax).None?
      {
        if HitsTriangle(lib, from, d, info.triangles[i], SHADOW_T_MIN, tMax).Some? {
          return true;
        }
        i := i + 1;
      }
      return false;
    }

    /** The two scans at the start of `rayCast`. */
    method NearestHit(from: Vec3, d: Vec3) returns (s: Surface)
      requires Resolved(info)
      ensures s == Nearest(lib, info, from, d)
    {
      s := ScanSpheres(from, d);
      s := ScanTriangles(from, d, s);
    }

    /** The sphere scan: `t`, `material` and `n` start at `FLT_MAX`, the default material and zero. */
    method ScanSpheres(from: Vec3, d: Vec3) returns (s: Surface)
      requires Resolved(info)
      ensures s == Select(NoHit(), Candidates(lib, info, from, d)[..|info.spheres|])
    {
      ghost var cands := Candidates(lib, info, from, d);
      var t := FLT_MAX;
      var material := DefaultMaterial();
      var n := Zero();
      var i := 0;
      while i < |info.spheres|
        invariant 0 <= i <= |info.spheres|
        invariant Surface(t, material, n) == Select(NoHit(), cands[..i])
      {
        var sphere := info.spheres[i];
        var hit := HitsSphere(lib, from, d, sphere, 0.0, FLT_MAX);
        SelectStep(NoHit(), cands, i);
        CandidateAt(lib, info, from, d, i);
        if hit.Some? && hit.value < t {
          t := hit.value;
          material := sphere.material.value;
          n := Normalize(lib, Sub(RayPoint(from, d, t), sphere.center));
        }
        i := i + 1;
      }
      s := Surface(t, material, n);
    }

    /** The triangle scan, continuing from the closest sphere. */
    method ScanTriangles(from: Vec3, d: Vec3, s0: Surface) returns (s: Surface)
      requires Resolved(info)
      requires s0 == Select(NoHit(), Candidates(lib, info, from, d)[..|info.spheres|])
      ensures s == Nearest(lib, info, from, d)
    {
      s := s0;
      var k := |info.spheres|;
      while k < |info.spheres| + |info.triangles|
        invariant |info.spheres| <= k <= |info.spheres| + |info.triangles|
        invariant s == Select(NoHit(), Candidates(lib, info, from, d)[..k])
      {
        s := TriangleRound(from, d, k, s);
        k := k + 1;
      }
      ScanComplete(lib, info, from, d, k);
    }

    /** One round of the triangle scan: candidate `k`, a triangle, replaces the current surface when its hit is strictly closer. */
    method TriangleRound(from: Vec3, d: Vec3, k: int, cur: Surface) returns (s: Surface)
      requires Resolved(info) && |info.spheres| <= k < |info.spheres| + |info.triangles|
      requires cur == Select(NoHit(), Candidates(lib, info, from, d)[..k])
      ensures s == Select(NoHit(), Candidates(lib, info, from, d)[..k + 1])
    {
      var triangle := info.triangles[k - |info.spheres|];
      var hit := HitsTriangle(lib, from, d, triangle, 0.0, FLT_MAX);
      TriangleStep(lib, info, from, d, k, cur);
      if hit.Some? && hit.value < cur.t {
        s := Surface(hit.value, triangle.material.value, TriangleNormal(lib, triangle, d));
      } else {
        s := cur;
      }
    }

    /** The light loop of `rayCast`: `i` runs to `point_lights.size()` inclusive, the last round for the directional light. */
    method LightLoop(hit: Vec3, n: Vec3, v: Vec3, m: Material) returns (diffuse: real, specular: real)
      ensures (diffuse, specular) == Shade(lib, info, hit, n, v, m, LightSources(info, hit))
    {
      ghost var lights := LightSources(info, hit);
      LightAt(info, hit, 0);
      diffuse := 0.0;
      specular := 0.0;
      var i := 0;
      while i <= |info.pointLights|
        invariant 0 <= i <= |info.pointLights| + 1 && i <= |lights|
        invariant (diffuse, specular) == Shade(lib, info, hit, n, v, m, lights[..i])
      {
        if i == |info.pointLights| && info.dirLight.None? {
          break;
        }
        var dd, ds := LightRound(hit, n, v, m, i);
        ShadeAccumulate(lib, info, hit, n, v, m, lights, i, diffuse, specular, dd, ds);
        diffuse := diffuse + dd;
        specular := specular + ds;
        i := i + 1;
      }
      assert lights[..i] == lights;
    }

    /** Round `i` of the light loop: the terms of its light, or nothing when shadows are on and the light is blocked. */
    method LightRound(hit: Vec3, n: Vec3, v: Vec3, m: Material, i: int) returns (dd: real, ds: real)
      requires 0 <= i < |LightSources(info, hit)| && i <= |info.pointLights|
      ensures var light := LightSources(info, hit)[i];
        (dd, ds) == if info.shadows && Shadowed(lib, info, hit, light.direction, light.tMax) then (0.0, 0.0)
                    else LightTerms(lib, light, n, v, m)
    {
      var hasDirLight := info.dirLight.Some?;
      var isDirLight := i == |info.pointLights|;
      var direction := if hasDirLight && isDirLight then Neg(info.dirLight.value.direction) else Sub(info.pointLights[i].position, hit);
      var intensity := if hasDirLight && isDirLight then info.dirLight.value.hIntensity else info.pointLights[i].intensity;
      var tMax := if hasDirLight && isDirLight then FLT_MAX else 1.0;
      var light := LightSample(direction, intensity, tMax, hasDirLight && isDirLight);
      LightAt(info, hit, i);
      assert LightSources(info, hit)[i] == light;
      var blocked := false;
      if info.shadows {
        blocked := InShadow(hit, direction, tMax);
      }
      dd, ds := 0.0, 0.0;
      if !blocked {
        var terms := LightTerms(lib, light, n, v, m);
        dd, ds := terms.0, terms.1;
      }
    }

    /** `rayCast(origin, direction, bounces)`. */
    method RayCast(from: Vec3, d: Vec3, bounces: int) returns (c: Colors.Color)
      requires Resolved(info)
      ensures c == Trace(lib, addAssign, info, from, d, bounces)
      decreases if bounces > 0 then bounces else 0
    {
      var s := NearestHit(from, d);
      if s.t == FLT_MAX {
        return Colors.Black();
      }
      var color := s.material.color;
      var hit := RayPoint(from, d, s.t);
      var v := Normalize(lib, Sub(from, hit));
      var diffuse, specular := LightLoop(hit, s.normal, v, s.material);
      var reflection := Colors.Black();
      if bounces > 0 && s.material.mirror > 0.0 {
        var r := Reflect(d, s.normal);
        var seen := RayCast(hit, r, bounces - 1);
        reflection := Colors.ScaleRight(seen, s.material.mirror);
      }
      color := Colors.ScaleRight(color, info.ambient + diffuse);
      color := addAssign(color, Colors.ScaleRight(Colors.White(), specular));
      color := addAssign(color, reflection);
      return color;
    }

    /** The body of the pixel loop up to the ray: `pixel_x` is rotated before `z` is computed from it. */
    method PixelRay(x: int, y: int, aspectRatio: real, sinTheta: real, cosTheta: real) returns (d: Vec3)
      requires aspectRatio == lib.fdiv(Colors.WIDTH as real, Colors.HEIGHT as real)
      requires sinTheta == lib.sin(lib.fdiv(theta * 3.1415926, 180.0))
      requires cosTheta == lib.cos(lib.fdiv(theta * 3.1415926, 180.0))
      ensures d == PrimaryRay(lib, theta, info.focalLength, x, y)
    {
      var pixelX := -1.0 + (1.0 - -1.0) * lib.fdiv(x as real, Colors.WIDTH as real);
      var pixelY := -1.0 + (1.0 - -1.0) * lib.fdiv(y as real, Colors.HEIGHT as real);
      pixelY := lib.fdiv(pixelY, aspectRatio);
      var z := info.focalLength;
      pixelX := cosTheta * pixelX - sinTheta * z;
      z := sinTheta * pixelX + cosTheta * z;
      d := Vec3(pixelX, pixelY, z);
    }

    /** The colour `render` gives pixel `(x, y)`: what its camera ray sees with three bounces. */
    function PixelColor(x: int, y: int): Colors.Color
      requires Resolved(info)
      reads this
    {
      Trace(lib, addAssign, info, origin, PrimaryRay(lib, theta, info.focalLength, x, y), BOUNCES)
    }

    /** `render(frame)`: every pixel gets the colour its camera ray sees, with three bounces. */
    method Render(frame: Colors.Frame)
      requires frame.Valid() && Resolved(info)
      modifies frame.colors
      ensures frame.Valid()
      ensures forall x, y :: 0 <= x < Colors.WIDTH && 0 <= y < Colors.HEIGHT ==>
        frame.GetColor(x, y) == Trace(lib, addAssign, info, origin, PrimaryRay(lib, theta, info.focalLength, x, y), BOUNCES)
    {
      var aspectRatio := lib.fdiv(Colors.WIDTH as real, Colors.HEIGHT as real);
      var rad := lib.fdiv(theta * 3.1415926, 180.0);
      var sinTheta := lib.sin(rad);
      var cosTheta := lib.cos(rad);
      var y := 0;
      while y < Colors.HEIGHT
        invariant 0 <= y <= Colors.HEIGHT
        invariant frame.Valid()
        invariant forall x', y' :: 0 <= x' < Colors.WIDTH && 0 <= y' < y ==> frame.GetColor(x', y') == PixelColor(x', y')
      {
        RenderRow(frame, y, aspectRatio, sinTheta, cosTheta);
        y := y + 1;
      }
    }

    /** One row of the pixel loop of `render`: row `y` is drawn and the rows before it are kept. */
    method RenderRow(frame: Colors.Frame, y: int, aspectRatio: real, sinTheta: real, cosTheta: real)
      requires frame.Valid() && Resolved(info) && 0 <= y < Colors.HEIGHT
      requires aspectRatio == lib.fdiv(Colors.WIDTH as real, Colors.HEIGHT as real)
      requires sinTheta == lib.sin(lib.fdiv(theta * 3.1415926, 180.0))
      requires cosTheta == lib.cos(lib.fdiv(theta * 3.1415926, 180.0))
      modifies frame.colors
      ensures frame.Valid()
      ensures forall x', y' :: 0 <= x' < Colors.WIDTH && 0 <= y' < Colors.HEIGHT ==>
        frame.GetColor(x', y') == if y' == y then PixelColor(x', y') else old(frame.GetColor(x', y'))
    {
      var x := 0;
      while x < Colors.WIDTH
        invariant 0 <= x <= Colors.WIDTH
        invariant frame.Valid()
        invariant forall x', y' :: 0 <= x' < Colors.WIDTH && 0 <= y' < Colors.HEIGHT ==>
          frame.GetColor(x', y') == if y' == y && x' < x then PixelColor(x', y') else old(frame.GetColor(x', y'))
      {
        var d := PixelRay(x, y, aspectRatio, sinTheta, cosTheta);
        var c := RayCast(origin, d, BOUNCES);
        frame.SetColor(x, y, c);
        x := x + 1;
      }
    }
  }
}
