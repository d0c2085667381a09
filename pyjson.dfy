/** JSON-shaped values as Python's json module reads and writes them, the
    exceptions the records raise, and the bits of Python semantics the
    records rely on: dict subscription, truthiness of optional arguments and
    str() of a value placed in a file name. */
module PyJson {

  datatype Option<+T> = None | Some(value: T)

  /** A parsed JSON document. Floating-point numbers are not modelled. */
  datatype Value =
    | Null
    | Bool(b: bool)
    | Int(i: int)
    | Str(s: string)
    | List(items: seq<Value>)
    | Object(fields: map<string, Value>)

  /** The exceptions that reach a caller. */
  datatype Failure =
    | NotFound(path: string)     // FileNotFoundError from open() or os.remove()
    | MissingKey(key: string)    // KeyError from data[key]
    | TypeError                  // data[key] or iteration on a value that does not support it
    | Unsupported(key: string)   // data[key] holds a kind of value that the typed field cannot hold

  datatype Result<+T> = Ok(value: T) | Err(failure: Failure) {
    predicate IsFailure() { Err? }

    function PropagateFailure<U>(): Result<U>
      requires Err?
    {
      Err(failure)
    }

    function Extract(): T
      requires Ok?
    {
      value
    }
  }

  datatype Outcome = Pass | Fail(failure: Failure)

  /** `data[key]` */
  function Lookup(data: Value, key: string): (r: Result<Value>)
    ensures r.Ok? <==> data.Object? && key in data.fields
    ensures r.Ok? ==> r.value == data.fields[key]
    ensures !data.Object? ==> r == Err(TypeError)
    ensures data.Object? && key !in data.fields ==> r == Err(MissingKey(key))
  {
    if !data.Object? then Err(TypeError)
    else if key !in data.fields then Err(MissingKey(key))
    else Ok(data.fields[key])
  }

  /** `data[key]` for a field the model types as a string. */
  function LookupString(data: Value, key: string): (r: Result<string>)
    ensures r.Ok? <==> Lookup(data, key).Ok? && Lookup(data, key).value.Str?
    ensures r.Ok? ==> r.value == data.fields[key].s
    ensures Lookup(data, key).Err? ==> r == Err(Lookup(data, key).failure)
    ensures Lookup(data, key).Ok? && !Lookup(data, key).value.Str? ==> r == Err(Unsupported(key))
  {
    var v :- Lookup(data, key);
    if v.Str? then Ok(v.s) else Err(Unsupported(key))
  }

  /** Python truthiness of an optional string argument (`if name:`):
      None and "" are false. */
  predicate Truthy(o: Option<string>)
    ensures Truthy(o) <==> o != None && o != Some("")
  {
    o.Some? && o.value != ""
  }

  function DigitChar(d: nat): (c: char)
    requires d < 10
    ensures '0' <= c <= '9'
  {
    (48 + d) as char
  }

  /** `str()` of a natural number: its decimal digits, which denote it. */
  function Digits(n: nat): (s: string)
    ensures |s| > 0
    ensures forall i :: 0 <= i < |s| ==> '0' <= s[i] <= '9'
    ensures DigitsValue(s) == n
  {
    if n < 10 then [DigitChar(n)]
    else
      var init := Digits(n / 10);
      assert (init + [DigitChar(n % 10)])[..|init|] == init;
      init + [DigitChar(n % 10)]
  }

  /** Python's `str()` of a value inside an f-string. Lists and dicts are
      rendered as a fixed placeholder. */
  function PyStr(v: Value): (r: string)
    ensures v.Str? ==> r == v.s
    ensures r == "" <==> v == Str("")
    ensures v.Int? ==> (r[0] == '-' <==> v.i < 0)
    ensures v.Int? ==> IntValue(r) == v.i
  {
    match v
    case Null => "None"
    case Bool(b) => if b then "True" else "False"
    case Int(i) =>
      if i < 0 then
        assert ("-" + Digits(-i))[1..] == Digits(-i);
        "-" + Digits(-i)
      else Digits(i)
    case Str(s) => s
    case List(_) => "[...]"
    case Object(_) => "{...}"
  }

  /** The number a string of decimal digits denotes. */
  function DigitsValue(s: string): int {
    if s == [] then 0 else 10 * DigitsValue(s[..|s| - 1]) + (s[|s| - 1] as int - 48)
  }

  /** `int()` of an integer's text: an optional `-`, then decimal digits. */
  function IntValue(s: string): int {
    if s != [] && s[0] == '-' then -DigitsValue(s[1..]) else DigitsValue(s)
  }

  /** Two integers place the same text in a file name only if they are
      equal, so distinct numeric identifiers name distinct files. */
  lemma PyStrIntInjective(a: int, b: int)
    requires PyStr(Int(a)) == PyStr(Int(b))
    ensures a == b
  {
    assert a == IntValue(PyStr(Int(a)));
  }
}
