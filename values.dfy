/** JSON-like values as the handlers see them once the HTTP layer has decoded
    a reply or a form, with Python's truth value and `dict.get`. */
module Values {

  datatype Option<+T> = None | Some(value: T)

  /** A decoded JSON value. Floating-point numbers are not part of the model.
      `Opaque` is a Python object that is not JSON data (a bound method, a class),
      named by the attribute that `getattr` found it under; no reply or form holds one. */
  datatype Value =
    | Null
    | Bool(b: bool)
    | Int(i: int)
    | Str(s: string)
    | List(items: seq<Value>)
    | Dict(entries: map<string, Value>)
    | Opaque(name: string)

  /** A JSON object: an API record, a request body or a reply body. */
  type Object = map<string, Value>

  const EmptyDict: Value := Dict(map[])

  /** Python's truth value: None, False, 0, "", [] and {} are false, everything else
      (a method or a class included) true. */
  predicate Truthy(v: Value)
    ensures Truthy(v) <==> v !in {Null, Bool(false), Int(0), Str(""), List([]), EmptyDict}
  {
    match v
    case Null => false
    case Bool(b) => b
    case Int(i) => i != 0
    case Str(s) => s != ""
    case List(xs) => xs != []
    case Dict(m) => m != map[]
    case Opaque(_) => true
  }

  /** Python's `v or default`. */
  function Or(v: Value, default: Value): (r: Value)
    ensures r == v || r == default
    ensures Truthy(v) ==> r == v
    ensures Truthy(r) <==> Truthy(v) || Truthy(default)
  {
    if Truthy(v) then v else default
  }

  /** Python's `d.get(key, default)`: a present key yields its value, even None. */
  function Get(d: Object, key: string, default: Value): (r: Value)
    ensures key in d ==> r == d[key]
    ensures key !in d ==> r == default
  {
    if key in d then d[key] else default
  }

  /** Flask's `request.form.get(key)`: the submitted string, or None. */
  function FormGet(form: map<string, string>, key: string): (r: Value)
    ensures r.Str? <==> key in form
    ensures r.Str? ==> r.s == form[key]
    ensures !r.Str? ==> r == Null
  {
    if key in form then Str(form[key]) else Null
  }

  /** Flask's `request.args.get(key, '')`. */
  function ArgGet(args: map<string, string>, key: string): (r: string)
    ensures key in args ==> r == args[key]
    ensures key !in args ==> r == ""
  {
    if key in args then args[key] else ""
  }

  /** Removing a key the object lacks leaves it as it is. */
  lemma WithoutAbsent(d: Object, k: string)
    requires k !in d
    ensures d - {k} == d
  {
  }

  /** The library functions the handlers call and the model leaves uninterpreted. */
  datatype Foreign = Foreign(
    secureFilename: string -> string,  // werkzeug.utils.secure_filename
    markdown: string -> string,        // markdown2.markdown
    cleanify: string -> string,        // flask_ckeditor.utils.cleanify
    jsonDumps: Value -> string)        // json.dumps
}
