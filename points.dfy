/**
 * Point coercion for segment constructors (viiva/paths/__init__.py,
 * `to_complex` and `preprocess`). Python values are modelled by `Value`,
 * which keeps only what these two functions look at: whether a value is a
 * number, a complex number, a list, a tuple, a dict, or an object with
 * attributes.
 */
module Points {
  import opened Geometry
  import opened Results

  /** A Python value, as far as point coercion distinguishes values. */
  datatype Value =
    | Number(n: real)                       // int, float or bool
    | Complex(z: Point)
    | List(items: seq<Value>)
    | Tuple(items: seq<Value>)
    | Dict(entries: map<string, Value>)
    | Object(attributes: map<string, Attribute>)
    | Other                                 // str, None and any other value

  /** An attribute of an object: a plain field, or a method that is called. */
  datatype Attribute = Field(value: Value) | Method(result: Value)

  predicate IsSequence(v: Value) {
    v.List? || v.Tuple?
  }

  predicate HasAttr(v: Value, name: string) {
    v.Object? && name in v.attributes
  }

  /** `point.x() if callable(point.x) else point.x` */
  function GetAttr(v: Value, name: string): Value
    requires HasAttr(v, name)
  {
    match v.attributes[name]
    case Field(w) => w
    case Method(w) => w
  }

  /** The real and imaginary parts of a number; zero for anything else. */
  function RealPart(v: Value): real {
    match v
    case Number(n) => n
    case Complex(z) => z.x
    case _ => 0.0
  }

  function ImagPart(v: Value): real {
    match v
    case Complex(z) => z.y
    case _ => 0.0
  }

  predicate IsNumeric(v: Value) {
    v.Number? || v.Complex?
  }

  /**
   * Python's `complex(re, im)`: the value re + im·i for numeric arguments,
   * and a TypeError for anything else.
   */
  function MakeComplex(re: Value, im: Value): (r: Result<Value>)
    ensures r.Ok? <==> IsNumeric(re) && IsNumeric(im)
    ensures re.Number? && im.Number? ==> r == Ok(Complex(Point(re.n, im.n)))
    ensures r.Err? ==> r.error == TypeError
  {
    if IsNumeric(re) && IsNumeric(im) then
      Ok(Complex(Point(RealPart(re) - ImagPart(im), ImagPart(re) + RealPart(im))))
    else
      Err(TypeError)
  }

  /** The three shapes `to_complex` recognises, tried in this order. */
  predicate IsPair(v: Value) {
    IsSequence(v) && |v.items| == 2
  }

  predicate HasCoordinates(v: Value) {
    HasAttr(v, "x") && HasAttr(v, "y")
  }

  predicate IsCoordinateDict(v: Value) {
    v.Dict? && "x" in v.entries && "y" in v.entries
  }

  predicate IsPointLike(v: Value) {
    IsPair(v) || HasCoordinates(v) || IsCoordinateDict(v)
  }

  /** `to_complex(point)` (viiva/paths/__init__.py:12-23). */
  function ToComplex(point: Value): (r: Result<Value>)
    ensures !IsPointLike(point) ==> r == Ok(point)
    ensures IsPointLike(point) ==> r.Err? || r.value.Complex?
    ensures r.Err? ==> IsPointLike(point) && r.error == TypeError
  {
    if IsPair(point) then
      MakeComplex(point.items[0], point.items[1])
    else if HasCoordinates(point) then
      MakeComplex(GetAttr(point, "x"), GetAttr(point, "y"))
    else if IsCoordinateDict(point) then
      MakeComplex(point.entries["x"], point.entries["y"])
    else
      Ok(point)
  }

  /** A pair (x, y), a list [x, y] or a dict {'x': x, 'y': y} of numbers becomes x + y·i. */
  lemma ToComplexOfCoordinates(x: real, y: real)
    ensures ToComplex(Tuple([Number(x), Number(y)])) == Ok(Complex(Point(x, y)))
    ensures ToComplex(List([Number(x), Number(y)])) == Ok(Complex(Point(x, y)))
    ensures ToComplex(Dict(map["x" := Number(x), "y" := Number(y)])) == Ok(Complex(Point(x, y)))
  {
    var d := Dict(map["x" := Number(x), "y" := Number(y)]);
    assert !IsPair(d) && !HasCoordinates(d) && IsCoordinateDict(d);
  }

  /** Converting a converted value again changes nothing. */
  lemma ToComplexIdempotent(point: Value)
    requires ToComplex(point).Ok?
    ensures ToComplex(ToComplex(point).value) == ToComplex(point)
  {
  }

  /** The per-element test of `preprocess`: convert lists, tuples, dicts and anything with an `x`. */
  function ConvertArgument(arg: Value): Result<Value> {
    if arg.List? || arg.Tuple? || arg.Dict? || HasAttr(arg, "x") then ToComplex(arg) else Ok(arg)
  }

  /** The guard in `preprocess` never changes the outcome: every element is simply passed to `to_complex`. */
  lemma ConvertArgumentIsToComplex(arg: Value)
    ensures ConvertArgument(arg) == ToComplex(arg)
  {
  }

  /** The generator over a list or tuple, evaluated left to right; the first exception propagates. */
  function ConvertItems(items: seq<Value>): (r: Result<seq<Value>>)
    ensures r.Ok? <==> forall i :: 0 <= i < |items| ==> ToComplex(items[i]).Ok?
    ensures r.Ok? ==> |r.value| == |items|
    ensures r.Ok? ==> forall i :: 0 <= i < |items| ==> r.value[i] == ToComplex(items[i]).value
    ensures r.Err? ==> r.error == TypeError
  {
    if items == [] then
      Ok([])
    else
      var head :- ConvertArgument(items[0]);
      var tail :- ConvertItems(items[1..]);
      assert forall i :: 1 <= i < |items| ==> items[i] == items[1..][i - 1];
      Ok([head] + tail)
  }

  /** The dict comprehension over the values of a dict. */
  function ConvertEntries(entries: map<string, Value>): (r: Result<map<string, Value>>)
    ensures r.Ok? <==> forall k :: k in entries ==> ToComplex(entries[k]).Ok?
    ensures r.Ok? ==> r.value.Keys == entries.Keys
    ensures r.Ok? ==> forall k :: k in entries ==> r.value[k] == ToComplex(entries[k]).value
    ensures r.Err? ==> r.error == TypeError
  {
    if forall k :: k in entries ==> ConvertArgument(entries[k]).Ok? then
      Ok(map k | k in entries :: ConvertArgument(entries[k]).value)
    else
      Err(TypeError)
  }

  /** `preprocess(args)` (viiva/paths/__init__.py:25-39). */
  function Preprocess(args: Value): (r: Result<Value>)
    ensures !(args.List? || args.Tuple? || args.Dict?) ==> r == Ok(args)
    ensures r.Ok? ==> SameShape(args, r.value)
    ensures r.Err? ==> r.error == TypeError
  {
    match args
    case List(items) =>
      var converted :- ConvertItems(items);
      Ok(List(converted))
    case Tuple(items) =>
      var converted :- ConvertItems(items);
      Ok(Tuple(converted))
    case Dict(entries) =>
      var converted :- ConvertEntries(entries);
      Ok(Dict(converted))
    case _ => Ok(args)
  }

  /** Same container kind, same length or keys, and elements that are not point-like are untouched. */
  predicate SameShape(before: Value, after: Value) {
    match before
    case List(items) =>
      after.List? && |after.items| == |items|
      && forall i :: 0 <= i < |items| && !IsPointLike(items[i]) ==> after.items[i] == items[i]
    case Tuple(items) =>
      after.Tuple? && |after.items| == |items|
      && forall i :: 0 <= i < |items| && !IsPointLike(items[i]) ==> after.items[i] == items[i]
    case Dict(entries) =>
      after.Dict? && after.entries.Keys == entries.Keys
      && forall k :: k in entries && !IsPointLike(entries[k]) ==> after.entries[k] == entries[k]
    case _ => after == before
  }

  /** `preprocess` raises exactly when `to_complex` raises on one of the elements. */
  lemma PreprocessFails(args: Value)
    requires args.List? || args.Tuple?
    ensures Preprocess(args).Err? <==> exists i :: 0 <= i < |args.items| && ToComplex(args.items[i]).Err?
  {
  }

  /** Each element of a preprocessed list or tuple is its element converted by `to_complex`. */
  lemma PreprocessPointwise(args: Value, i: nat)
    requires args.List? || args.Tuple?
    requires Preprocess(args).Ok? && i < |args.items|
    ensures Preprocess(args).value.items[i] == ToComplex(args.items[i]).value
  {
  }
}
