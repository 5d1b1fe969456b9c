/**
 * `parseLine`, the six `parse*` builders and `Parser::parseFile` of
 * parser.cpp.
 *
 * A scene file is a sequence of lines. Empty lines and lines starting with
 * `#` are skipped; every other line names an object type and lists its
 * attributes, and the builder for that type appends one object to the
 * rendering info (or, for `direction` and `global`, replaces fields of it).
 * A material with a `$name` attribute is registered in the process-wide
 * material map under that name. After the last line every sphere and then
 * every triangle looks up its material name in the map.
 *
 * Each thrown error is an `Err`. The material map, a static global of the
 * source, is the field `materialMap` of a `SceneParser`, so that it outlives
 * one call of `ParseFile` just as the static does; the file's lines are the
 * input.
 */
module Parser {
  import opened Wrappers
  import opened Vectors
  import opened SceneData
  import opened Attributes
  import opened LineSyntax
  import opened Builders

  /** What a parse has built so far: the rendering info and the material map. */
  datatype ParserState = ParserState(info: RenderingInfo, materialMap: map<string, Material>)

  // ---------------------------------------------------------------- the builders

  /** `parseLight`: one more point light. */
  function AddLight(info: RenderingInfo, attrs: seq<string>): Result<RenderingInfo, ParseError>
  {
    var l :- Build(LightSchema, ApplyLight, DefaultLight(), attrs);
    Ok(info.(pointLights := info.pointLights + [l]))
  }

  /** `parseDirection`: the directional light is replaced. */
  function AddDirection(info: RenderingInfo, attrs: seq<string>): Result<RenderingInfo, ParseError>
  {
    var d :- Build(DirectionSchema, ApplyDirection, DefaultDirectionalLight(), attrs);
    Ok(info.(dirLight := Some(d)))
  }

  /** `parseGlobal`: the attributes are stored into the rendering info itself. */
  function AddGlobal(info: RenderingInfo, attrs: seq<string>): Result<RenderingInfo, ParseError>
  {
    Build(GlobalSchema, ApplyGlobal, info, attrs)
  }

  /** `parseSphere`: one more sphere, its material still unresolved. */
  function AddSphere(info: RenderingInfo, attrs: seq<string>): Result<RenderingInfo, ParseError>
  {
    var s :- Build(SphereSchema, ApplySphere, DefaultSphere(), attrs);
    Ok(info.(spheres := info.spheres + [s]))
  }

  /** `parseTriangle`: one more triangle, its material still unresolved. */
  function AddTriangle(info: RenderingInfo, attrs: seq<string>): Result<RenderingInfo, ParseError>
  {
    var t :- Build(TriangleSchema, ApplyTriangle, DefaultTriangle(), attrs);
    Ok(info.(triangles := info.triangles + [t]))
  }

  /** The map after registering `m` under every name in `names`. */
  function Register(materialMap: map<string, Material>, names: set<string>, m: Material): map<string, Material>
  {
    materialMap + map n | n in names :: m
  }

  /**
   * `parseMaterial`: one more material, registered under each of its `$name`
   * values. The map stores the address of the material being built, so every
   * registered name ends up with the finished material.
   */
  function AddMaterial(st: ParserState, attrs: seq<string>): Result<ParserState, ParseError>
  {
    var (m, names) :- MaterialAndNames(attrs);
    Ok(ParserState(st.info.(materials := st.info.materials + [m]), Register(st.materialMap, names, m)))
  }

  /** The material a `material` line builds and the names it registers. */
  function MaterialAndNames(attrs: seq<string>): Result<(Material, set<string>), ParseError>
  {
    var ss :- ClassifyAll(Classifier(MaterialSchema), attrs);
    Ok((ApplyAll(ApplyMaterial, DefaultMaterial(), ss), RegisteredNames(ss)))
  }

  /** The dispatch at the end of `parseLine`. */
  function Dispatch(st: ParserState, objectType: string, attrs: seq<string>): Result<ParserState, ParseError>
  {
    if objectType == "material" then AddMaterial(st, attrs)
    else if objectType == "light" then var info :- AddLight(st.info, attrs); Ok(st.(info := info))
    else if objectType == "direction" then var info :- AddDirection(st.info, attrs); Ok(st.(info := info))
    else if objectType == "sphere" then var info :- AddSphere(st.info, attrs); Ok(st.(info := info))
    else if objectType == "triangle" then var info :- AddTriangle(st.info, attrs); Ok(st.(info := info))
    else if objectType == "global" then var info :- AddGlobal(st.info, attrs); Ok(st.(info := info))
    else Err(UnrecognizedObjectType(objectType))
  }

  /** `parseLine`: tokenise, condense, dispatch on the object type. */
  function ParseLineSpec(st: ParserState, line: string): Result<ParserState, ParseError>
  {
    var c := Condense(Tokens(line));
    Dispatch(st, c.objectType, c.attributes)
  }

  /** The lines `parseFile` does not parse. */
  predicate Skipped(line: string) { |line| == 0 || line[0] == '#' }

  /** The line loop of `parseFile`: every line that is not skipped, in order; the first error stops it. */
  function ParseLines(st: ParserState, lines: seq<string>): Result<ParserState, ParseError>
  {
    if |lines| == 0 then Ok(st)
    else
      var st' :- ParseLines(st, lines[..|lines| - 1]);
      if Skipped(lines[|lines| - 1]) then Ok(st') else ParseLineSpec(st', lines[|lines| - 1])
  }

  /** The sphere loop after the lines: each sphere points at the material its name is mapped to. */
  function ResolveSpheres(spheres: seq<Sphere>, materialMap: map<string, Material>): (r: Result<seq<Sphere>, ParseError>)
    ensures r.Ok? ==> |r.value| == |spheres| && forall i :: 0 <= i < |spheres| ==>
      spheres[i].materialName in materialMap &&
      r.value[i] == spheres[i].(material := Some(materialMap[spheres[i].materialName]))
  {
    if |spheres| == 0 then Ok([])
    else
      var init :- ResolveSpheres(spheres[..|spheres| - 1], materialMap);
      var s := spheres[|spheres| - 1];
      if s.materialName !in materialMap then Err(MaterialNotFound(s.materialName))
      else Ok(init + [s.(material := Some(materialMap[s.materialName]))])
  }

  /** The triangle loop, run after the sphere loop. */
  function ResolveTriangles(triangles: seq<Triangle>, materialMap: map<string, Material>): (r: Result<seq<Triangle>, ParseError>)
    ensures r.Ok? ==> |r.value| == |triangles| && forall i :: 0 <= i < |triangles| ==>
      triangles[i].materialName in materialMap &&
      r.value[i] == triangles[i].(material := Some(materialMap[triangles[i].materialName]))
  {
    if |triangles| == 0 then Ok([])
    else
      var init :- ResolveTriangles(triangles[..|triangles| - 1], materialMap);
      var t := triangles[|triangles| - 1];
      if t.materialName !in materialMap then Err(MaterialNotFound(t.materialName))
      else Ok(init + [t.(material := Some(materialMap[t.materialName]))])
  }

  /** `parseFile` on the lines of a file, starting from the material map `materialMap`. */
  function ParseFileSpec(lines: seq<string>, materialMap: map<string, Material>): Result<ParserState, ParseError>
  {
    var st :- ParseLines(ParserState(EmptyInfo(), materialMap), lines);
    ResolveMaterials(st)
  }

  /** The resolution pass after the last line: the spheres first, then the triangles. */
  function ResolveMaterials(st: ParserState): Result<ParserState, ParseError>
  {
    var spheres :- ResolveSpheres(st.info.spheres, st.materialMap);
    var triangles :- ResolveTriangles(st.info.triangles, st.materialMap);
    Ok(ParserState(st.info.(spheres := spheres, triangles := triangles), st.materialMap))
  }

  // ---------------------------------------------------------------- the builder methods

  method ParseLight(attributes: seq<string>, info: RenderingInfo) returns (r: Result<RenderingInfo, ParseError>)
    ensures r == AddLight(info, attributes)
  {
    var light := BuildObject(LightSchema, ApplyLight, DefaultLight(), attributes);
    if light.Err? {
      return Err(light.error);
    }
    r := Ok(info.(pointLights := info.pointLights + [light.value]));
  }

  method ParseDirection(attributes: seq<string>, info: RenderingInfo) returns (r: Result<RenderingInfo, ParseError>)
    ensures r == AddDirection(info, attributes)
  {
    var dlight := BuildObject(DirectionSchema, ApplyDirection, DefaultDirectionalLight(), attributes);
    if dlight.Err? {
      return Err(dlight.error);
    }
    r := Ok(info.(dirLight := Some(dlight.value)));
  }

  method ParseGlobal(attributes: seq<string>, info: RenderingInfo) returns (r: Result<RenderingInfo, ParseError>)
    ensures r == AddGlobal(info, attributes)
  {
    r := BuildObject(GlobalSchema, ApplyGlobal, info, attributes);
  }

  method ParseSphere(attributes: seq<string>, info: RenderingInfo) returns (r: Result<RenderingInfo, ParseError>)
    ensures r == AddSphere(info, attributes)
  {
    var sphere := BuildObject(SphereSchema, ApplySphere, DefaultSphere(), attributes);
    if sphere.Err? {
      return Err(sphere.error);
    }
    r := Ok(info.(spheres := info.spheres + [sphere.value]));
  }

  method ParseTriangle(attributes: seq<string>, info: RenderingInfo) returns (r: Result<RenderingInfo, ParseError>)
    ensures r == AddTriangle(info, attributes)
  {
    var triangle := BuildObject(TriangleSchema, ApplyTriangle, DefaultTriangle(), attributes);
    if triangle.Err? {
      return Err(triangle.error);
    }
    r := Ok(info.(triangles := info.triangles + [triangle.value]));
  }

  lemma RegisteredNamesSnoc(ss: seq<Assignment>, a: Assignment)
    ensures RegisteredNames(ss + [a]) ==
      RegisteredNames(ss) + (if a.StringAttr? && a.name == "$name" then {a.text} else {})
  {
    var lhs := RegisteredNames(ss + [a]);
    var rhs := RegisteredNames(ss) + (if a.StringAttr? && a.name == "$name" then {a.text} else {});
    forall n | n in lhs ensures n in rhs {
      var k :| 0 <= k < |ss + [a]| && (ss + [a])[k] == StringAttr("$name", n);
      if k < |ss| {
        assert ss[k] == (ss + [a])[k];
      }
    }
    forall n | n in rhs ensures n in lhs {
      if n in RegisteredNames(ss) {
        var k :| 0 <= k < |ss| && ss[k] == StringAttr("$name", n);
        assert (ss + [a])[k] == ss[k];
      } else {
        assert (ss + [a])[|ss|] == a;
      }
    }
  }

  /**
   * The attribute loop of `parseMaterial`. Each `$name` stores the material
   * address in the map while the material is still being filled in, so every
   * name collected here is registered with the finished material.
   */
  method BuildMaterial(attributes: seq<string>) returns (r: Result<(Material, set<string>), ParseError>)
    ensures r == MaterialAndNames(attributes)
  {
    var mat := DefaultMaterial();
    var names: set<string> := {};
    ghost var done: seq<Assignment> := [];
    var i := 0;
    while i < |attributes|
      invariant 0 <= i <= |attributes|
      invariant ClassifyAll(Classifier(MaterialSchema), attributes[..i]) == Ok(done)
      invariant mat == ApplyAll(ApplyMaterial, DefaultMaterial(), done)
      invariant names == RegisteredNames(done)
    {
      var c := Classify(MaterialSchema, attributes[i]);
      assert c == Classifier(MaterialSchema)(attributes[i]);
      ClassifyAllNext(Classifier(MaterialSchema), attributes, i);
      if c.Err? {
        ClassifyAllErrorPersists(Classifier(MaterialSchema), attributes, i + 1);
        return Err(c.error);
      }
      RegisteredNamesSnoc(done, c.value);
      mat := ApplyMaterial(mat, c.value);
      if c.value.StringAttr? && c.value.name == "$name" {
        names := names + {c.value.text};
      }
      done := done + [c.value];
      i := i + 1;
    }
    assert attributes[..|attributes|] == attributes;
    r := Ok((mat, names));
  }

  /** The sphere loop of `parseFile`: each sphere's material reference is set from the map, or the name is not found. */
  method ResolveSphereMaterials(spheres: seq<Sphere>, materialMap: map<string, Material>) returns (r: Result<seq<Sphere>, ParseError>)
    ensures r == ResolveSpheres(spheres, materialMap)
  {
    var resolved := spheres;
    for k := 0 to |spheres|
      invariant |resolved| == |spheres|
      invariant ResolveSpheres(spheres[..k], materialMap).Ok?
      invariant resolved[..k] == ResolveSpheres(spheres[..k], materialMap).value
      invariant resolved[k..] == spheres[k..]
    {
      var sphere := resolved[k];
      assert spheres[..k + 1][..k] == spheres[..k];
      assert sphere == spheres[k];
      if sphere.materialName !in materialMap {
        ResolveSpheresErrorPersists(spheres, materialMap, k + 1);
        return Err(MaterialNotFound(sphere.materialName));
      }
      resolved := resolved[k := sphere.(material := Some(materialMap[sphere.materialName]))];
      assert resolved[..k + 1] == resolved[..k] + [resolved[k]];
    }
    assert spheres[..|spheres|] == spheres;
    assert resolved[..|resolved|] == resolved;
    r := Ok(resolved);
  }

  /** The triangle loop of `parseFile`. */
  method ResolveTriangleMaterials(triangles: seq<Triangle>, materialMap: map<string, Material>) returns (r: Result<seq<Triangle>, ParseError>)
    ensures r == ResolveTriangles(triangles, materialMap)
  {
    var resolved := triangles;
    for k := 0 to |triangles|
      invariant |resolved| == |triangles|
      invariant ResolveTriangles(triangles[..k], materialMap).Ok?
      invariant resolved[..k] == ResolveTriangles(triangles[..k], materialMap).value
      invariant resolved[k..] == triangles[k..]
    {
      var triangle := resolved[k];
      assert triangles[..k + 1][..k] == triangles[..k];
      assert triangle == triangles[k];
      if triangle.materialName !in materialMap {
        ResolveTrianglesErrorPersists(triangles, materialMap, k + 1);
        return Err(MaterialNotFound(triangle.materialName));
      }
      resolved := resolved[k := triangle.(material := Some(materialMap[triangle.materialName]))];
      assert resolved[..k + 1] == resolved[..k] + [resolved[k]];
    }
    assert triangles[..|triangles|] == triangles;
    assert resolved[..|resolved|] == resolved;
    r := Ok(resolved);
  }

  /** The state of the parser that outlives a parse: the static `material_map`. */
  class SceneParser {
    var materialMap: map<string, Material>

    constructor ()
      ensures materialMap == map[]
    {
      materialMap := map[];
    }

    /** `parseMaterial`: the material is built and registered under each of its `$name` values. */
    method ParseMaterial(attributes: seq<string>, info: RenderingInfo) returns (r: Result<RenderingInfo, ParseError>)
      modifies this
      ensures var spec := AddMaterial(ParserState(info, old(materialMap)), attributes);
        && (r.Ok? <==> spec.Ok?)
        && (r.Err? ==> r.error == spec.error)
        && (r.Ok? ==> r.value == spec.value.info && materialMap == spec.value.materialMap)
    {
      var built := BuildMaterial(attributes);
      if built.Err? {
        return Err(built.error);
      }
      var (mat, names) := built.value;
      materialMap := Register(materialMap, names, mat);
      r := Ok(info.(materials := info.materials + [mat]));
    }

    /** `parseLine`. */
    method ParseLine(line: string, info: RenderingInfo) returns (r: Result<RenderingInfo, ParseError>)
      modifies this
      ensures var spec := ParseLineSpec(ParserState(info, old(materialMap)), line);
        && (r.Ok? <==> spec.Ok?)
        && (r.Err? ==> r.error == spec.error)
        && (r.Ok? ==> r.value == spec.value.info && materialMap == spec.value.materialMap)
    {
      var rawTokens := SplitTokens(line);
      var objectType, attributes := CondenseTokens(rawTokens);
      if objectType == "material" {
        r := ParseMaterial(attributes, info);
      } else if objectType == "light" {
        r := ParseLight(attributes, info);
      } else if objectType == "direction" {
        r := ParseDirection(attributes, info);
      } else if objectType == "sphere" {
        r := ParseSphere(attributes, info);
      } else if objectType == "triangle" {
        r := ParseTriangle(attributes, info);
      } else if objectType == "global" {
        r := ParseGlobal(attributes, info);
      } else {
        r := Err(UnrecognizedObjectType(objectType));
      }
    }

    /** `parseFile` on the lines of a file: the line loop, then the sphere and the triangle loops. */
    method ParseFile(lines: seq<string>) returns (r: Result<RenderingInfo, ParseError>)
      modifies this
      ensures var spec := ParseFileSpec(lines, old(materialMap));
        && (r.Ok? <==> spec.Ok?)
        && (r.Err? ==> r.error == spec.error)
        && (r.Ok? ==> r.value == spec.value.info && materialMap == spec.value.materialMap)
    {
      var st0 := ParserState(EmptyInfo(), materialMap);
      var info := EmptyInfo();
      var i := 0;
      while i < |lines|
        invariant 0 <= i <= |lines|
        invariant ParseLines(st0, lines[..i]) == Ok(ParserState(info, materialMap))
      {
        var line := lines[i];
        assert lines[..i + 1][..i] == lines[..i];
        if Skipped(line) {
          i := i + 1;
          continue;
        }
        var next := ParseLine(line, info);
        if next.Err? {
          ParseLinesErrorPersists(st0, lines, i + 1);
          return Err(next.error);
        }
        info := next.value;
        i := i + 1;
      }
      assert lines[..|lines|] == lines;
      var spheres := ResolveSphereMaterials(info.spheres, materialMap);
      if spheres.Err? {
        return Err(spheres.error);
      }
      var triangles := ResolveTriangleMaterials(info.triangles, materialMap);
      if triangles.Err? {
        return Err(triangles.error);
      }
      r := Ok(info.(spheres := spheres.value, triangles := triangles.value));
    }
  }

  lemma {:induction false} ParseLinesErrorPersists(st: ParserState, lines: seq<string>, n: nat)
    requires n <= |lines| && ParseLines(st, lines[..n]).Err?
    ensures ParseLines(st, lines) == ParseLines(st, lines[..n])
    decreases |lines| - n
  {
    if n < |lines| {
      assert lines[..n + 1][..n] == lines[..n];
      ParseLinesErrorPersists(st, lines, n + 1);
    } else {
      assert lines[..n] == lines;
    }
  }

  lemma {:induction false} ResolveSpheresErrorPersists(spheres: seq<Sphere>, materialMap: map<string, Material>, n: nat)
    requires n <= |spheres| && ResolveSpheres(spheres[..n], materialMap).Err?
    ensures ResolveSpheres(spheres, materialMap) == ResolveSpheres(spheres[..n], materialMap)
    decreases |spheres| - n
  {
    if n < |spheres| {
      assert spheres[..n + 1][..n] == spheres[..n];
      ResolveSpheresErrorPersists(spheres, materialMap, n + 1);
    } else {
      assert spheres[..n] == spheres;
    }
  }

  lemma {:induction false} ResolveTrianglesErrorPersists(triangles: seq<Triangle>, materialMap: map<string, Material>, n: nat)
    requires n <= |triangles| && ResolveTriangles(triangles[..n], materialMap).Err?
    ensures ResolveTriangles(triangles, materialMap) == ResolveTriangles(triangles[..n], materialMap)
    decreases |triangles| - n
  {
    if n < |triangles| {
      assert triangles[..n + 1][..n] == triangles[..n];
      ResolveTrianglesErrorPersists(triangles, materialMap, n + 1);
    } else {
      assert triangles[..n] == triangles;
    }
  }
  // ---------------------------------------------------------------- properties

  /** The object types `parseLine` knows. */
  predicate KnownObjectType(objectType: string)
  {
    objectType in {"material", "light", "direction", "sphere", "triangle", "global"}
  }

  /**
   * One line's effect: an unknown object type is an error naming it; otherwise
   * each builder appends exactly one object to its own list and leaves the
   * others alone, `direction` replaces the directional light, `global` alone
   * changes the ambient term and the focal length, and only `material` changes
   * the map.
   */
  lemma DispatchEffect(st: ParserState, objectType: string, attrs: seq<string>)
    ensures !KnownObjectType(objectType) <==> Dispatch(st, objectType, attrs) == Err(UnrecognizedObjectType(objectType))
    ensures Dispatch(st, objectType, attrs).Ok? ==>
      var info := st.info;
      var info' := Dispatch(st, objectType, attrs).value.info;
      && |info'.pointLights| == |info.pointLights| + (if objectType == "light" then 1 else 0)
      && |info'.spheres| == |info.spheres| + (if objectType == "sphere" then 1 else 0)
      && |info'.triangles| == |info.triangles| + (if objectType == "triangle" then 1 else 0)
      && |info'.materials| == |info.materials| + (if objectType == "material" then 1 else 0)
      && info'.pointLights[..|info.pointLights|] == info.pointLights
      && info'.spheres[..|info.spheres|] == info.spheres
      && info'.triangles[..|info.triangles|] == info.triangles
      && info'.materials[..|info.materials|] == info.materials
      && (objectType != "direction" ==> info'.dirLight == info.dirLight)
      && (objectType == "direction" ==> info'.dirLight.Some?)
      && (objectType != "global" ==> info'.ambient == info.ambient && info'.focalLength == info.focalLength)
      && info'.shadows == info.shadows
      && (objectType != "material" ==> Dispatch(st, objectType, attrs).value.materialMap == st.materialMap)
  {
    if objectType == "global" && Dispatch(st, objectType, attrs).Ok? {
      GlobalOnlyAmbientAndFocalLength(st.info, attrs);
    }
    if KnownObjectType(objectType) && Dispatch(st, objectType, attrs).Err? {
      var schema :=
        if objectType == "material" then MaterialSchema
        else if objectType == "light" then LightSchema
        else if objectType == "direction" then DirectionSchema
        else if objectType == "sphere" then SphereSchema
        else if objectType == "triangle" then TriangleSchema
        else GlobalSchema;
      assert ClassifyAll(Classifier(schema), attrs).Err?;
      assert Dispatch(st, objectType, attrs).error == ClassifyAll(Classifier(schema), attrs).error;
      ClassifyAllFirstError(Classifier(schema), attrs);
    }
  }

  /**
   * A `material` line registers its material under each of its `$name`
   * values, replacing an earlier registration under that name; every other
   * name keeps its entry, so a material without `$name` is never registered.
   * The stored material's name is its last `$name` value.
   */
  lemma RegisterEffect(materialMap: map<string, Material>, names: set<string>, m: Material)
    ensures var map' := Register(materialMap, names, m);
      && map'.Keys == materialMap.Keys + names
      && (forall n :: n in names ==> map'[n] == m)
      && (forall n :: n in materialMap && n !in names ==> map'[n] == materialMap[n])
      && (names == {} ==> map' == materialMap)
  {
  }

  lemma MaterialRegistration(st: ParserState, attrs: seq<string>)
    requires AddMaterial(st, attrs).Ok?
    ensures var m := MaterialAndNames(attrs).value.0;
      var names := MaterialAndNames(attrs).value.1;
      var map' := AddMaterial(st, attrs).value.materialMap;
      && map'.Keys == st.materialMap.Keys + names
      && (forall n :: n in names ==> map'[n] == m)
      && (forall n :: n in st.materialMap && n !in names ==> map'[n] == st.materialMap[n])
      && (names == {} ==> map' == st.materialMap)
  {
    var m := MaterialAndNames(attrs).value.0;
    var names := MaterialAndNames(attrs).value.1;
    assert AddMaterial(st, attrs).value.materialMap == Register(st.materialMap, names, m);
    RegisterEffect(st.materialMap, names, m);
  }

  /** The resolution fails exactly when some name is missing, and then names the first missing one. */
  lemma {:induction false} ResolveSpheresFails(spheres: seq<Sphere>, materialMap: map<string, Material>)
    ensures ResolveSpheres(spheres, materialMap).Err? <==> exists i :: 0 <= i < |spheres| && spheres[i].materialName !in materialMap
    ensures ResolveSpheres(spheres, materialMap).Err? ==>
      exists i :: 0 <= i < |spheres| && ResolveSpheres(spheres, materialMap).error == MaterialNotFound(spheres[i].materialName) &&
                  spheres[i].materialName !in materialMap && forall j :: 0 <= j < i ==> spheres[j].materialName in materialMap
  {
    if |spheres| > 0 {
      var init := spheres[..|spheres| - 1];
      ResolveSpheresFails(init, materialMap);
      if ResolveSpheres(init, materialMap).Err? {
        var i :| 0 <= i < |init| && ResolveSpheres(init, materialMap).error == MaterialNotFound(init[i].materialName) &&
          init[i].materialName !in materialMap && forall j :: 0 <= j < i ==> init[j].materialName in materialMap;
        assert spheres[i] == init[i];
        forall j | 0 <= j < i ensures spheres[j].materialName in materialMap {
          assert spheres[j] == init[j];
        }
      } else {
        forall j | 0 <= j < |init| ensures spheres[j].materialName in materialMap {
          assert spheres[j] == init[j];
        }
      }
    }
  }

  /** Resolving the triangles fails exactly when some triangle's name is unregistered, and the error names the first such triangle. */
  lemma {:induction false} ResolveTrianglesFails(triangles: seq<Triangle>, materialMap: map<string, Material>)
    ensures ResolveTriangles(triangles, materialMap).Err? <==> exists i :: 0 <= i < |triangles| && triangles[i].materialName !in materialMap
    ensures ResolveTriangles(triangles, materialMap).Err? ==>
      exists i :: 0 <= i < |triangles| && ResolveTriangles(triangles, materialMap).error == MaterialNotFound(triangles[i].materialName) &&
                  triangles[i].materialName !in materialMap && forall j :: 0 <= j < i ==> triangles[j].materialName in materialMap
  {
    if |triangles| > 0 {
      var init := triangles[..|triangles| - 1];
      ResolveTrianglesFails(init, materialMap);
      if ResolveTriangles(init, materialMap).Err? {
        var i :| 0 <= i < |init| && ResolveTriangles(init, materialMap).error == MaterialNotFound(init[i].materialName) &&
          init[i].materialName !in materialMap && forall j :: 0 <= j < i ==> init[j].materialName in materialMap;
        assert triangles[i] == init[i];
        forall j | 0 <= j < i ensures triangles[j].materialName in materialMap {
          assert triangles[j] == init[j];
        }
      } else {
        forall j | 0 <= j < |init| ensures triangles[j].materialName in materialMap {
          assert triangles[j] == init[j];
        }
      }
    }
  }

  /** `name` is the first unregistered material name in `names`. */
  predicate FirstMissing(names: seq<string>, materialMap: map<string, Material>, name: string)
  {
    exists i :: 0 <= i < |names| && names[i] == name && name !in materialMap &&
                forall j :: 0 <= j < i ==> names[j] in materialMap
  }

  function SphereNames(spheres: seq<Sphere>): (r: seq<string>)
    ensures |r| == |spheres| && forall i :: 0 <= i < |spheres| ==> r[i] == spheres[i].materialName
  {
    seq(|spheres|, i requires 0 <= i < |spheres| => spheres[i].materialName)
  }

  function TriangleNames(triangles: seq<Triangle>): (r: seq<string>)
    ensures |r| == |triangles| && forall i :: 0 <= i < |triangles| ==> r[i] == triangles[i].materialName
  {
    seq(|triangles|, i requires 0 <= i < |triangles| => triangles[i].materialName)
  }

  /** Resolution fails exactly when some sphere or triangle names an unregistered material. */
  lemma ResolveFailsIff(st: ParserState)
    ensures ResolveMaterials(st).Err? <==>
      exists n :: (n in SphereNames(st.info.spheres) || n in TriangleNames(st.info.triangles)) && n !in st.materialMap
  {
    ResolveSpheresFails(st.info.spheres, st.materialMap);
    ResolveTrianglesFails(st.info.triangles, st.materialMap);
    var spheres := SphereNames(st.info.spheres);
    var triangles := TriangleNames(st.info.triangles);
    assert (exists n :: n in spheres && n !in st.materialMap) <==>
           exists i :: 0 <= i < |st.info.spheres| && st.info.spheres[i].materialName !in st.materialMap;
    assert (exists n :: n in triangles && n !in st.materialMap) <==>
           exists i :: 0 <= i < |st.info.triangles| && st.info.triangles[i].materialName !in st.materialMap;
  }

  /** Spheres are resolved first: a missing sphere material is reported, the first one in file order. */
  lemma ResolveSphereFirst(st: ParserState)
    requires exists n :: n in SphereNames(st.info.spheres) && n !in st.materialMap
    ensures var r := ResolveMaterials(st);
      r.Err? && r.error.MaterialNotFound? && FirstMissing(SphereNames(st.info.spheres), st.materialMap, r.error.materialName)
  {
    ResolveSpheresFails(st.info.spheres, st.materialMap);
    var spheres := SphereNames(st.info.spheres);
    var n :| n in spheres && n !in st.materialMap;
    var k :| 0 <= k < |spheres| && spheres[k] == n;
    assert st.info.spheres[k].materialName !in st.materialMap;
  }

  /** With every sphere material registered, the first missing triangle material is reported. */
  lemma ResolveTriangleFirst(st: ParserState)
    requires forall n :: n in SphereNames(st.info.spheres) ==> n in st.materialMap
    requires exists n :: n in TriangleNames(st.info.triangles) && n !in st.materialMap
    ensures var r := ResolveMaterials(st);
      r.Err? && r.error.MaterialNotFound? && FirstMissing(TriangleNames(st.info.triangles), st.materialMap, r.error.materialName)
  {
    ResolveSpheresFails(st.info.spheres, st.materialMap);
    ResolveTrianglesFails(st.info.triangles, st.materialMap);
    var spheres := SphereNames(st.info.spheres);
    var triangles := TriangleNames(st.info.triangles);
    assert forall i :: 0 <= i < |st.info.spheres| ==> st.info.spheres[i].materialName in st.materialMap by {
      forall i | 0 <= i < |st.info.spheres| ensures st.info.spheres[i].materialName in st.materialMap {
        assert spheres[i] in spheres;
      }
    }
    var n :| n in triangles && n !in st.materialMap;
    var k :| 0 <= k < |triangles| && triangles[k] == n;
    assert st.info.triangles[k].materialName !in st.materialMap;
  }

  /** Once the lines parse to `st`, parsing the file is resolving `st`. */
  lemma ParseFileResolves(lines: seq<string>, materialMap: map<string, Material>, st: ParserState)
    requires ParseLines(ParserState(EmptyInfo(), materialMap), lines) == Ok(st)
    ensures ParseFileSpec(lines, materialMap) == ResolveMaterials(st)
  {
  }

  /** A successful parse leaves every sphere and every triangle pointing at the material its name maps to in the final map. */
  lemma ParseFileResolved(lines: seq<string>, materialMap: map<string, Material>)
    requires ParseFileSpec(lines, materialMap).Ok?
    ensures var r := ParseFileSpec(lines, materialMap).value;
      && Resolved(r.info)
      && (forall i :: 0 <= i < |r.info.spheres| ==>
            r.info.spheres[i].materialName in r.materialMap &&
            r.info.spheres[i].material == Some(r.materialMap[r.info.spheres[i].materialName]))
      && (forall i :: 0 <= i < |r.info.triangles| ==>
            r.info.triangles[i].materialName in r.materialMap &&
            r.info.triangles[i].material == Some(r.materialMap[r.info.triangles[i].materialName]))
  {
  }

  /** The lines that are parsed, in order. */
  function ParsedLines(lines: seq<string>): (r: seq<string>)
    ensures forall k :: 0 <= k < |r| ==> !Skipped(r[k])
  {
    if |lines| == 0 then []
    else ParsedLines(lines[..|lines| - 1]) + (if Skipped(lines[|lines| - 1]) then [] else [lines[|lines| - 1]])
  }

  /** Every line parsed in turn, with no skipping. */
  function ParseEach(st: ParserState, lines: seq<string>): Result<ParserState, ParseError>
  {
    if |lines| == 0 then Ok(st)
    else
      var st' :- ParseEach(st, lines[..|lines| - 1]);
      ParseLineSpec(st', lines[|lines| - 1])
  }

  /** The line loop is parsing exactly the lines that are neither empty nor comments, in their order. */
  lemma {:induction false} ParseLinesSkips(st: ParserState, lines: seq<string>)
    ensures ParseLines(st, lines) == ParseEach(st, ParsedLines(lines))
  {
    if |lines| > 0 {
      var init := lines[..|lines| - 1];
      ParseLinesSkips(st, init);
      var last := lines[|lines| - 1];
      if !Skipped(last) {
        assert ParsedLines(lines) == ParsedLines(init) + [last];
        assert ParsedLines(lines)[..|ParsedLines(lines)| - 1] == ParsedLines(init);
      } else {
        assert ParsedLines(lines) == ParsedLines(init);
        assert ParseLines(st, lines) == ParseLines(st, init);
      }
    }
  }
}
