/**
 * The attribute loop shared by the six `parse*` builders of parser.cpp.
 *
 * Every builder walks its attributes in order. It tests the attribute class
 * (numeric, vector, string) in its own order, compares the attribute name
 * with the names it knows, reads the value and stores it in a field of the
 * object under construction. An attribute of a class the builder has no
 * branch for raises "Unrecognized attribute"; a known class with an unknown
 * name raises "Unrecognized <class> attribute". The classes are disjoint, so
 * the order of the class tests does not change the outcome, and a builder is
 * fully described by the names it accepts per class (its `Schema`) and by how
 * an accepted attribute changes the object (its `Apply*` function).
 */
module Builders {
  import opened Wrappers
  import opened Vectors
  import opened Colors
  import opened SceneData
  import opened Attributes

  /** An accepted attribute: its name, as `getAttributeName` returns it, and its value. */
  datatype Assignment =
    | NumericAttr(name: string, number: real)
    | VectorAttr(name: string, vector: Vec3)
    | StringAttr(name: string, text: string)

  /**
   * For each attribute class, `None` when the builder has no branch for the
   * class, or the names its branch accepts.
   */
  datatype Schema = Schema(numeric: Option<set<string>>, vector: Option<set<string>>, strings: Option<set<string>>)

  /** `parseLight`: `->pos` and `i`. */
  const LightSchema: Schema := Schema(Some({"i"}), Some({"->pos"}), None)
  /** `parseDirection`: `->d` and `h`. */
  const DirectionSchema: Schema := Schema(Some({"h"}), Some({"->d"}), None)
  /** `parseGlobal`: numeric `ambient` and `focal_length` only. */
  const GlobalSchema: Schema := Schema(Some({"ambient", "focal_length"}), None, None)
  /** `parseSphere`: `radius`, `->center`, `$mat`. */
  const SphereSchema: Schema := Schema(Some({"radius"}), Some({"->center"}), Some({"$mat"}))
  /** `parseTriangle`: `->p0`, `->p1`, `->p2`, `$mat`; no numeric branch. */
  const TriangleSchema: Schema := Schema(None, Some({"->p0", "->p1", "->p2"}), Some({"$mat"}))
  /** `parseMaterial`: `gloss`, `p`, `->col`, `$name`. */
  const MaterialSchema: Schema := Schema(Some({"gloss", "p"}), Some({"->col"}), Some({"$name"}))

  /** `a` is an assignment the builder with schema `schema` can make. */
  predicate Produces(schema: Schema, a: Assignment)
  {
    match a
    case NumericAttr(n, _) => schema.numeric.Some? && n in schema.numeric.value
    case VectorAttr(n, _) => schema.vector.Some? && n in schema.vector.value
    case StringAttr(n, _) => schema.strings.Some? && n in schema.strings.value
  }

  /** One iteration of a builder's loop, before the value is stored. */
  function Classify(schema: Schema, attr: string): (r: Result<Assignment, ParseError>)
    ensures r.Ok? ==> Produces(schema, r.value)
    ensures r.Err? ==> !r.error.UnrecognizedObjectType? && !r.error.MaterialNotFound?
  {
    if StartsNumericAttribute(attr) && schema.numeric.Some? then
      var name := AttributeName(attr).value;
      if name in schema.numeric.value then
        var x :- NumericValue(attr);
        Ok(NumericAttr(name, x))
      else Err(UnrecognizedNumericAttribute(name))
    else if StartsVectorAttribute(attr) && schema.vector.Some? then
      var name := AttributeName(attr).value;
      if name in schema.vector.value then
        var v :- VectorValue(attr);
        Ok(VectorAttr(name, v))
      else Err(UnrecognizedVectorAttribute(name))
    else if StartsStringAttribute(attr) && schema.strings.Some? then
      var name := AttributeName(attr).value;
      if name in schema.strings.value then
        var s :- StringValue(attr);
        Ok(StringAttr(name, s))
      else Err(UnrecognizedStringAttribute(name))
    else Err(UnrecognizedAttribute(attr))
  }

  /**
   * The outcome of one attribute: it is accepted exactly when its class has a
   * branch, its name is known there and its value reads; the accepted name
   * and value are the ones the helpers read; and each error names what was
   * not recognised.
   */
  lemma ClassifyOutcome(schema: Schema, attr: string)
    ensures var r := Classify(schema, attr);
      && (r.Err? && r.error.UnrecognizedAttribute? <==>
            !(StartsNumericAttribute(attr) && schema.numeric.Some?) &&
            !(StartsVectorAttribute(attr) && schema.vector.Some?) &&
            !(StartsStringAttribute(attr) && schema.strings.Some?))
      && (r.Ok? ==> AttributeName(attr) == Ok(r.value.name))
      && (r.Ok? && r.value.NumericAttr? ==> StartsNumericAttribute(attr) && NumericValue(attr) == Ok(r.value.number))
      && (r.Ok? && r.value.VectorAttr? ==> StartsVectorAttribute(attr) && VectorValue(attr) == Ok(r.value.vector))
      && (r.Ok? && r.value.StringAttr? ==> StartsStringAttribute(attr) && StringValue(attr) == Ok(r.value.text))
      && (r.Err? && r.error.UnrecognizedNumericAttribute? ==>
            StartsNumericAttribute(attr) && r.error.name == AttributeName(attr).value && r.error.name !in schema.numeric.value)
      && (r.Err? && r.error.UnrecognizedVectorAttribute? ==>
            StartsVectorAttribute(attr) && r.error.name == AttributeName(attr).value && r.error.name !in schema.vector.value)
      && (r.Err? && r.error.UnrecognizedStringAttribute? ==>
            StartsStringAttribute(attr) && r.error.name == AttributeName(attr).value && r.error.name !in schema.strings.value)
  {
    ClassifyUnrecognized(schema, attr);
    ClassifyAccepted(schema, attr);
    ClassifyUnknownName(schema, attr);
  }

  /** "Unrecognized attribute" exactly when the attribute's class has no branch. */
  lemma ClassifyUnrecognized(schema: Schema, attr: string)
    ensures var r := Classify(schema, attr);
      r.Err? && r.error.UnrecognizedAttribute? <==>
        !(StartsNumericAttribute(attr) && schema.numeric.Some?) &&
        !(StartsVectorAttribute(attr) && schema.vector.Some?) &&
        !(StartsStringAttribute(attr) && schema.strings.Some?)
  {
    AttributeClassesDisjoint(attr);
    if StartsAttribute(attr) {
      AttributeNameOfAttribute(attr);
    }
  }

  /** An accepted attribute carries the name and the value the helpers read, of its own class. */
  lemma ClassifyAccepted(schema: Schema, attr: string)
    ensures var r := Classify(schema, attr);
      && (r.Ok? ==> AttributeName(attr) == Ok(r.value.name))
      && (r.Ok? && r.value.NumericAttr? ==> StartsNumericAttribute(attr) && NumericValue(attr) == Ok(r.value.number))
      && (r.Ok? && r.value.VectorAttr? ==> StartsVectorAttribute(attr) && VectorValue(attr) == Ok(r.value.vector))
      && (r.Ok? && r.value.StringAttr? ==> StartsStringAttribute(attr) && StringValue(attr) == Ok(r.value.text))
  {
    AttributeClassesDisjoint(attr);
    if StartsAttribute(attr) {
      AttributeNameOfAttribute(attr);
    }
  }

  /** An unknown name in a class with a branch is reported with that name, which the branch does not accept. */
  lemma ClassifyUnknownName(schema: Schema, attr: string)
    ensures var r := Classify(schema, attr);
      && (r.Err? && r.error.UnrecognizedNumericAttribute? ==>
            StartsNumericAttribute(attr) && r.error.name == AttributeName(attr).value && r.error.name !in schema.numeric.value)
      && (r.Err? && r.error.UnrecognizedVectorAttribute? ==>
            StartsVectorAttribute(attr) && r.error.name == AttributeName(attr).value && r.error.name !in schema.vector.value)
      && (r.Err? && r.error.UnrecognizedStringAttribute? ==>
            StartsStringAttribute(attr) && r.error.name == AttributeName(attr).value && r.error.name !in schema.strings.value)
  {
    AttributeClassesDisjoint(attr);
    if StartsAttribute(attr) {
      AttributeNameOfAttribute(attr);
    }
  }


  // ---------------------------------------------------------------- the loop

  /** `Classify` for the builder with schema `schema`, as a function value. */
  function Classifier(schema: Schema): string -> Result<Assignment, ParseError>
  {
    attr => Classify(schema, attr)
  }

  /** All attributes classified in order; the first failure is the builder's error. */
  function ClassifyAll(classify: string -> Result<Assignment, ParseError>, attrs: seq<string>): (r: Result<seq<Assignment>, ParseError>)
    ensures r.Ok? ==> |r.value| == |attrs| && forall k :: 0 <= k < |attrs| ==> classify(attrs[k]) == Ok(r.value[k])
  {
    if |attrs| == 0 then Ok([])
    else
      var init :- ClassifyAll(classify, attrs[..|attrs| - 1]);
      var a :- classify(attrs[|attrs| - 1]);
      Ok(init + [a])
  }

  /** The builder fails exactly when some attribute fails. */
  lemma {:induction false} ClassifyAllFails(classify: string -> Result<Assignment, ParseError>, attrs: seq<string>)
    ensures ClassifyAll(classify, attrs).Err? <==> exists k :: 0 <= k < |attrs| && classify(attrs[k]).Err?
  {
    if |attrs| > 0 {
      var init := attrs[..|attrs| - 1];
      ClassifyAllFails(classify, init);
      if ClassifyAll(classify, init).Err? {
        var k :| 0 <= k < |init| && classify(init[k]).Err?;
        assert attrs[k] == init[k];
      } else if classify(attrs[|attrs| - 1]).Ok? {
        forall k | 0 <= k < |attrs| ensures classify(attrs[k]).Ok? {
          if k < |init| {
            assert attrs[k] == init[k];
          }
        }
      }
    }
  }

  /** The error of a failing builder is the error of its first failing attribute. */
  lemma {:induction false} ClassifyAllFirstError(classify: string -> Result<Assignment, ParseError>, attrs: seq<string>)
    requires ClassifyAll(classify, attrs).Err?
    ensures exists k :: 0 <= k < |attrs| && classify(attrs[k]) == Err(ClassifyAll(classify, attrs).error) &&
                        forall j :: 0 <= j < k ==> classify(attrs[j]).Ok?
  {
    var init := attrs[..|attrs| - 1];
    if ClassifyAll(classify, init).Err? {
      ClassifyAllFirstError(classify, init);
      var k :| 0 <= k < |init| && classify(init[k]) == Err(ClassifyAll(classify, init).error) &&
        forall j :: 0 <= j < k ==> classify(init[j]).Ok?;
      assert attrs[k] == init[k];
      forall j | 0 <= j < k ensures classify(attrs[j]).Ok? {
        assert attrs[j] == init[j];
      }
    } else {
      forall j | 0 <= j < |attrs| - 1 ensures classify(attrs[j]).Ok? {
        assert attrs[j] == init[j];
      }
    }
  }

  /** Once a prefix of the attributes fails, the whole list fails with the same error. */
  lemma {:induction false} ClassifyAllErrorPersists(classify: string -> Result<Assignment, ParseError>, attrs: seq<string>, n: nat)
    requires n <= |attrs| && ClassifyAll(classify, attrs[..n]).Err?
    ensures ClassifyAll(classify, attrs) == ClassifyAll(classify, attrs[..n])
    decreases |attrs| - n
  {
    if n < |attrs| {
      assert attrs[..n + 1][..n] == attrs[..n];
      ClassifyAllErrorPersists(classify, attrs, n + 1);
    } else {
      assert attrs[..n] == attrs;
    }
  }

  /** One more attribute: the list fails with its error, or grows by its assignment. */
  lemma ClassifyAllNext(classify: string -> Result<Assignment, ParseError>, attrs: seq<string>, i: int)
    requires 0 <= i < |attrs| && ClassifyAll(classify, attrs[..i]).Ok?
    ensures ClassifyAll(classify, attrs[..i + 1]) ==
      match classify(attrs[i])
      case Err(e) => Err(e)
      case Ok(a) => Ok(ClassifyAll(classify, attrs[..i]).value + [a])
  {
    assert attrs[..i + 1][..i] == attrs[..i];
  }

  /** The object after storing every assignment in order. */
  function ApplyAll<T>(apply: (T, Assignment) -> T, init: T, ss: seq<Assignment>): T
  {
    if |ss| == 0 then init else apply(ApplyAll(apply, init, ss[..|ss| - 1]), ss[|ss| - 1])
  }

  /** What a builder produces from its attributes, or the first error. */
  function Build<T>(schema: Schema, apply: (T, Assignment) -> T, init: T, attrs: seq<string>): Result<T, ParseError>
  {
    var ss :- ClassifyAll(Classifier(schema), attrs);
    Ok(ApplyAll(apply, init, ss))
  }

  /** The loop of a `parse*` builder: fill a default object attribute by attribute, stopping at the first error. */
  method BuildObject<T>(schema: Schema, apply: (T, Assignment) -> T, init: T, attrs: seq<string>)
    returns (r: Result<T, ParseError>)
    ensures r == Build(schema, apply, init, attrs)
  {
    var obj := init;
    var i := 0;
    while i < |attrs|
      invariant 0 <= i <= |attrs|
      invariant ClassifyAll(Classifier(schema), attrs[..i]).Ok?
      invariant obj == ApplyAll(apply, init, ClassifyAll(Classifier(schema), attrs[..i]).value)
    {
      var c := Classify(schema, attrs[i]);
      ClassifyAllNext(Classifier(schema), attrs, i);
      if c.Err? {
        ClassifyAllErrorPersists(Classifier(schema), attrs, i + 1);
        return Err(c.error);
      }
      obj := apply(obj, c.value);
      i := i + 1;
    }
    assert attrs[..|attrs|] == attrs;
    return Ok(obj);
  }

  /** The last assignment named `name`, if any. */
  function LastNamed(ss: seq<Assignment>, name: string): (r: Option<Assignment>)
    ensures r.Some? ==> r.value.name == name && r.value in ss
    ensures r.None? ==> forall k :: 0 <= k < |ss| ==> ss[k].name != name
  {
    if |ss| == 0 then None
    else if ss[|ss| - 1].name == name then Some(ss[|ss| - 1])
    else LastNamed(ss[..|ss| - 1], name)
  }

  /** What `LastNamed` finds sits at a position after which no assignment has that name. */
  lemma {:induction false} LastNamedIsLast(ss: seq<Assignment>, name: string)
    ensures var r := LastNamed(ss, name);
      r.Some? ==> exists k :: 0 <= k < |ss| && ss[k] == r.value && forall j :: k < j < |ss| ==> ss[j].name != name
  {
    if |ss| > 0 && ss[|ss| - 1].name != name {
      var init := ss[..|ss| - 1];
      LastNamedIsLast(init, name);
      var r := LastNamed(init, name);
      if r.Some? {
        var k :| 0 <= k < |init| && init[k] == r.value && forall j :: k < j < |init| ==> init[j].name != name;
        assert ss[k] == r.value && forall j :: k < j < |ss| ==> ss[j].name != name;
      }
    }
  }

  /**
   * A repeated attribute overwrites the earlier value: a field that only the
   * assignments named `name` set, each regardless of the object, ends up as the
   * last such assignment sets it, or as in the initial object when there is none.
   */
  lemma {:induction false} LastWriteWins<T, V>(schema: Schema, apply: (T, Assignment) -> T, get: T -> V, name: string,
                                              init: T, ss: seq<Assignment>)
    requires forall t: T, a: Assignment :: Produces(schema, a) && a.name != name ==> get(apply(t, a)) == get(t)
    requires forall t: T, t': T, a: Assignment :: Produces(schema, a) && a.name == name ==> get(apply(t, a)) == get(apply(t', a))
    requires forall k :: 0 <= k < |ss| ==> Produces(schema, ss[k])
    ensures get(ApplyAll(apply, init, ss)) ==
      match LastNamed(ss, name)
      case None => get(init)
      case Some(a) => get(apply(init, a))
  {
    if |ss| > 0 {
      var init' := ss[..|ss| - 1];
      forall k | 0 <= k < |init'| ensures Produces(schema, init'[k]) {
        assert init'[k] == ss[k];
      }
      LastWriteWins(schema, apply, get, name, init, init');
    }
  }

  // ---------------------------------------------------------------- the six builders' stores

  function ApplyLight(l: Light, a: Assignment): Light
  {
    match a
    case VectorAttr(n, v) => if n == "->pos" then l.(position := v) else l
    case NumericAttr(n, x) => if n == "i" then l.(intensity := x) else l
    case StringAttr(_, _) => l
  }

  function ApplyDirection(d: DirectionalLight, a: Assignment): DirectionalLight
  {
    match a
    case VectorAttr(n, v) => if n == "->d" then d.(direction := v) else d
    case NumericAttr(n, x) => if n == "h" then d.(hIntensity := x) else d
    case StringAttr(_, _) => d
  }

  /** `parseGlobal` stores straight into the rendering info. */
  function ApplyGlobal(info: RenderingInfo, a: Assignment): RenderingInfo
  {
    match a
    case NumericAttr(n, x) =>
      if n == "ambient" then info.(ambient := x)
      else if n == "focal_length" then info.(focalLength := x)
      else info
    case _ => info
  }

  function ApplySphere(s: Sphere, a: Assignment): Sphere
  {
    match a
    case NumericAttr(n, x) => if n == "radius" then s.(radius := x) else s
    case VectorAttr(n, v) => if n == "->center" then s.(center := v) else s
    case StringAttr(n, m) => if n == "$mat" then s.(materialName := m) else s
  }

  function ApplyTriangle(t: Triangle, a: Assignment): Triangle
  {
    match a
    case VectorAttr(n, v) =>
      if n == "->p0" then t.(p0 := v)
      else if n == "->p1" then t.(p1 := v)
      else if n == "->p2" then t.(p2 := v)
      else t
    case StringAttr(n, m) => if n == "$mat" then t.(materialName := m) else t
    case NumericAttr(_, _) => t
  }

  /** `->col` becomes `Color(v.x, v.y, v.z)`; `$name` both names the material and registers it. */
  function ApplyMaterial(m: Material, a: Assignment): Material
  {
    match a
    case NumericAttr(n, x) =>
      if n == "gloss" then m.(glossiness := x)
      else if n == "p" then m.(p := x)
      else m
    case VectorAttr(n, v) => if n == "->col" then m.(color := Color(v.x, v.y, v.z)) else m
    case StringAttr(n, s) => if n == "$name" then m.(name := s) else m
  }

  /** The names a material line registers: the value of every `$name` attribute. */
  function RegisteredNames(ss: seq<Assignment>): (names: set<string>)
    ensures forall k :: 0 <= k < |ss| && ss[k].StringAttr? && ss[k].name == "$name" ==> ss[k].text in names
    ensures forall n :: n in names ==> exists k :: 0 <= k < |ss| && ss[k] == StringAttr("$name", n)
  {
    set k | 0 <= k < |ss| && ss[k].StringAttr? && ss[k].name == "$name" :: ss[k].text
  }

  // ---------------------------------------------------------------- per-builder consequences

  /** A light's position and intensity come from its last `->pos` and last `i` attribute, or stay zero. */
  lemma LightFromLastAttributes(attrs: seq<string>)
    requires Build(LightSchema, ApplyLight, DefaultLight(), attrs).Ok?
    ensures var l := Build(LightSchema, ApplyLight, DefaultLight(), attrs).value;
      var ss := ClassifyAll(Classifier(LightSchema), attrs).value;
      && l.position == (match LastNamed(ss, "->pos") case None => Zero() case Some(a) => a.vector)
      && l.intensity == (match LastNamed(ss, "i") case None => 0.0 case Some(a) => a.number)
  {
    var ss := ClassifyAll(Classifier(LightSchema), attrs).value;
    assert forall k :: 0 <= k < |ss| ==> Produces(LightSchema, ss[k]);
    LastWriteWins(LightSchema, ApplyLight, (l: Light) => l.position, "->pos", DefaultLight(), ss);
    LastWriteWins(LightSchema, ApplyLight, (l: Light) => l.intensity, "i", DefaultLight(), ss);
  }

  /** A material's name is the value of its last `$name` attribute, and empty when it has none. */
  lemma MaterialNameFromLast(attrs: seq<string>)
    requires Build(MaterialSchema, ApplyMaterial, DefaultMaterial(), attrs).Ok?
    ensures var m := Build(MaterialSchema, ApplyMaterial, DefaultMaterial(), attrs).value;
      var ss := ClassifyAll(Classifier(MaterialSchema), attrs).value;
      && m.name == (match LastNamed(ss, "$name") case None => "" case Some(a) => a.text)
      && (RegisteredNames(ss) == {} <==> LastNamed(ss, "$name").None?)
  {
    var ss := ClassifyAll(Classifier(MaterialSchema), attrs).value;
    assert forall k :: 0 <= k < |ss| ==> Produces(MaterialSchema, ss[k]);
    LastWriteWins(MaterialSchema, ApplyMaterial, (m: Material) => m.name, "$name", DefaultMaterial(), ss);
    var last := LastNamed(ss, "$name");
    if last.Some? {
      var k :| 0 <= k < |ss| && ss[k] == last.value;
      assert ss[k].text in RegisteredNames(ss);
    }
  }

  /** `parseGlobal` changes the ambient term and the focal length and nothing else. */
  lemma GlobalOnlyAmbientAndFocalLength(info: RenderingInfo, attrs: seq<string>)
    requires Build(GlobalSchema, ApplyGlobal, info, attrs).Ok?
    ensures var r := Build(GlobalSchema, ApplyGlobal, info, attrs).value;
      r == info.(ambient := r.ambient, focalLength := r.focalLength)
  {
    var ss := ClassifyAll(Classifier(GlobalSchema), attrs).value;
    GlobalStores(info, ss);
  }

  lemma {:induction false} GlobalStores(info: RenderingInfo, ss: seq<Assignment>)
    ensures var r := ApplyAll(ApplyGlobal, info, ss);
      r == info.(ambient := r.ambient, focalLength := r.focalLength)
  {
    if |ss| > 0 {
      GlobalStores(info, ss[..|ss| - 1]);
    }
  }
}
