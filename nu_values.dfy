/**
 * The slice of the host shell's library (nu_protocol) that the plugin
 * uses: untyped values with their spans, the custom values the plugin
 * hands out, shell errors, syntax shapes, command signatures and the
 * evaluated call. Only what the plugin relies on is modelled.
 */
module NuValues {
  import opened Wrappers
  import opened Utf8

  /** A 128-bit random identifier. */
  type Uuid = u: int | 0 <= u < 0x1_0000_0000_0000_0000_0000_0000_0000_0000

  type i64 = x: int | -0x8000_0000_0000_0000 <= x < 0x8000_0000_0000_0000

  /** A float is passed through untouched; no arithmetic is done on it. */
  datatype FloatBits = FloatBits(bits: bv64)

  /** A source location in the host. */
  datatype Span = Span(start: nat, end: nat)

  /** `Span::unknown()`. */
  const UnknownSpan: Span := Span(0, 0)

  /** The session handle of the first plugin generation (`LuaHandle`). */
  datatype LuaHandle = LuaHandle(uuid: Uuid)

  /** The session reference of the second generation (`custom::Lua`). */
  datatype Lua = Lua(uuid: Uuid)

  /** The plugin's enum of custom values (`PluginValue`). */
  datatype PluginValue = PluginLua(lua: Lua)

  /**
   * The concrete type behind a `Box<dyn CustomValue>`: downcasting to
   * `LuaHandle` or `PluginValue` succeeds on exactly one constructor.
   */
  datatype CustomValue =
    | CustomHandle(handle: LuaHandle)
    | CustomPluginValue(pluginValue: PluginValue)
    | OtherCustom(typeName: string)

  /** A record column; a record keeps its columns in insertion order. */
  datatype Column = Column(name: string, val: Value)

  /** An untyped host value; every value carries the span it came from. */
  datatype Value =
    | String(str: string, span: Span)
    | Int(intVal: i64, span: Span)
    | Bool(boolVal: bool, span: Span)
    | Float(floatVal: FloatBits, span: Span)
    | Nothing(span: Span)
    | Binary(bytes: seq<byte>, span: Span)
    | List(vals: seq<Value>, span: Span)
    | Record(cols: seq<Column>, span: Span)
    | Custom(custom: CustomValue, span: Span)

  /** The shape a command declares for one positional argument. */
  datatype SyntaxShape = ShapeAny | ShapeString

  /**
   * The errors the plugin produces or forwards. `Panicked` stands for a
   * Rust panic (`todo!()`, `expect`), which would abort the call.
   */
  datatype ShellError =
    | TypeMismatch(errMessage: string, span: Span)
    | Labeled(msg: string)
    | CantConvert(toType: string, span: Span)
    | Panicked(message: string)

  /** `Value::as_str`: succeeds exactly on strings. */
  function AsStr(v: Value): (r: Result<string, ShellError>)
    ensures r.Success? <==> v.String?
    ensures r.Success? ==> r.value == v.str
    ensures r.Failure? ==> r.error == CantConvert("string", v.span)
  {
    if v.String? then Success(v.str) else Failure(CantConvert("string", v.span))
  }

  /** `Value::as_custom_value`: succeeds exactly on custom values. */
  function AsCustomValue(v: Value): (r: Result<CustomValue, ShellError>)
    ensures r.Success? <==> v.Custom?
    ensures r.Success? ==> r.value == v.custom
    ensures r.Failure? ==> r.error == CantConvert("custom value", v.span)
  {
    if v.Custom? then Success(v.custom) else Failure(CantConvert("custom value", v.span))
  }

  /** Whether the host lets a value through to a slot declared with `shape`. */
  predicate ShapeAdmits(shape: SyntaxShape, v: Value) {
    match shape
    case ShapeAny => true
    case ShapeString => v.String?
  }

  /** A call's positional arguments, after the host evaluated them. */
  datatype EvaluatedCall = EvaluatedCall(head: Span, positional: seq<Value>)

  /** One required positional parameter of a signature. */
  datatype PositionalArg = PositionalArg(name: string, desc: string, shape: SyntaxShape)

  /** One named flag of a signature. */
  datatype Flag = Flag(long: string, short: char, desc: string)

  /** A command's declared signature: its name, required positionals and flags. */
  datatype Signature = Signature(name: string, required: seq<PositionalArg>, named: seq<Flag>)

  const HelpFlag: Flag := Flag("help", 'h', "Display the help message for this command")

  /** `Signature::new(name)`. */
  function NewSignature(name: string): Signature {
    Signature(name, [], [])
  }

  /** `Signature::add_help`. */
  function AddHelp(sig: Signature): Signature {
    sig.(named := sig.named + [HelpFlag])
  }

  /** `Signature::required`: appends one required positional parameter. */
  function Required(sig: Signature, name: string, shape: SyntaxShape, desc: string): Signature {
    sig.(required := sig.required + [PositionalArg(name, desc, shape)])
  }
}
